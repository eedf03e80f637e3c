/**
 The puller and the reload taken apart at their locks (internal/daemon/peers.go).

 A pull answers two requests, records the result under `p.mu`, releases it, and
 only then writes the registry, one call at a time. A reload holds `p.mu`
 throughout but clears the dropped nodes one registry call at a time, so the
 puller's pending writes may fall between its clears. Every interleaving of
 those steps, and of any other writer of the directory, is an event sequence.
 */
module Interleaving {
  import opened Results
  import opened Protocol
  import opened Directories
  import opened Peering
  import Passes = PeerRuns
  import Runs = DirectoryRuns

  datatype Puller =
    | Idle
    | Between(todo: seq<string>)
    | Asked(endpoint: string, id: string, name: string, todo: seq<string>)
    | Answered(endpoint: string, id: string, name: string, list: seq<Service>, todo: seq<string>)
    | Failing(endpoint: string, cause: string, todo: seq<string>)
    // Past the unlock. `dropped` records that a reload has dropped the endpoint since.
    | Withdrawing(endpoint: string, previous: string, id: string, list: seq<Service>, todo: seq<string>, dropped: bool)
    | Storing(endpoint: string, id: string, list: seq<Service>, todo: seq<string>, dropped: bool)
    | Clearing(id: string, todo: seq<string>)

  datatype Reload =
    | NoReload
    | Reloading(endpoints: seq<string>, left: set<string>)  // dropped endpoints still to be cleared

  /** One node. `orphans` is a history variable: the IDs last written by a pull whose endpoint a reload had dropped. */
  datatype Node = Node(
    local: string,
    dir: Directory,
    table: Table,
    puller: Puller,
    reload: Reload,
    orphans: set<string>)

  datatype Event =
    | StartPass
    | InfoOk(id: string, name: string)
    | InfoFailed(cause: string)
    | ServicesOk(list: seq<Service>)
    | ServicesFailed(cause: string)
    | Lock(at: int)
    | Write
    | FinishPass
    | BeginReload(endpoints: seq<string>)
    | ReloadClears(endpoint: string)
    | FinishReload
    | LocalWrite(op: Runs.Op)

  function Forget(n: Node, id: string): Node {
    n.(dir := n.dir.(remote := n.dir.remote - {id}), orphans := n.orphans - {id})
  }

  /** The locked part of `pull` or of `markOffline`. */
  function LockStep(n: Node, at: int): Node {
    match n.puller
    case Answered(e, id, name, list, todo) =>
      if e !in n.table.states then n.(puller := Between(todo))  // no longer configured
      else
        var p := n.table.states[e];
        n.(table := n.table.(states := n.table.states[e := Peer(p.endpoint, id, name, true, Some(at), "")]),
           puller := if p.nodeID != "" && p.nodeID != id then Withdrawing(e, p.nodeID, id, list, todo, false)
                     else Storing(e, id, list, todo, false))
    case Failing(e, cause, todo) =>
      if e !in n.table.states then n.(puller := Between(todo))
      else
        var p := n.table.states[e];
        n.(table := n.table.(states := n.table.states[e := p.(online := false, lastErr := cause)]),
           puller := if p.nodeID != "" then Clearing(p.nodeID, todo) else Between(todo))
    case _ => n
  }

  /** The puller's next registry write, made without the lock. */
  function WriteStep(n: Node): Node {
    match n.puller
    case Withdrawing(e, previous, id, list, todo, dropped) =>
      Forget(n, previous).(puller := Storing(e, id, list, todo, dropped))
    case Storing(_, id, list, todo, dropped) =>
      var remote := Put(n.dir.remote, id, list);
      n.(dir := n.dir.(remote := remote),
         puller := Between(todo),
         orphans := if dropped && id in remote then n.orphans + {id} else n.orphans - {id})
    case Clearing(id, todo) => Forget(n, id).(puller := Between(todo))
    case _ => n
  }

  /** A reload that drops the endpoint of a pull past its unlock leaves that pull's store stray. */
  function Strayed(p: Puller, endpoints: seq<string>): Puller {
    match p
    case Withdrawing(e, previous, id, list, todo, dropped) =>
      Withdrawing(e, previous, id, list, todo, dropped || e !in endpoints)
    case Storing(e, id, list, todo, dropped) => Storing(e, id, list, todo, dropped || e !in endpoints)
    case _ => p
  }

  /** One step. An event that is not enabled changes nothing. */
  function Step(n: Node, ev: Event): Node {
    match ev
    case StartPass =>
      if n.puller.Idle? && n.reload.NoReload? then n.(puller := Between(n.table.order)) else n
    case InfoOk(id, name) =>
      if n.puller.Between? && n.puller.todo != [] then
        var e, rest := n.puller.todo[0], n.puller.todo[1..];
        n.(puller := if id == "" then Failing(e, NoID, rest)
                     else if id == n.local then Failing(e, OwnID, rest)
                     else Asked(e, id, name, rest))
      else n
    case InfoFailed(cause) =>
      if n.puller.Between? && n.puller.todo != []
      then n.(puller := Failing(n.puller.todo[0], cause, n.puller.todo[1..])) else n
    case ServicesOk(list) =>
      if n.puller.Asked?
      then n.(puller := Answered(n.puller.endpoint, n.puller.id, n.puller.name, list, n.puller.todo)) else n
    case ServicesFailed(cause) =>
      if n.puller.Asked? then n.(puller := Failing(n.puller.endpoint, cause, n.puller.todo)) else n
    case Lock(at) => if n.reload.NoReload? then LockStep(n, at) else n
    case Write => WriteStep(n)
    case FinishPass => if n.puller == Between([]) then n.(puller := Idle) else n
    case BeginReload(endpoints) =>
      if n.reload.NoReload? then
        n.(reload := Reloading(endpoints, set e <- n.table.states | e !in endpoints && n.table.states[e].nodeID != ""),
           puller := Strayed(n.puller, endpoints))
      else n
    case ReloadClears(e) =>
      if n.reload.Reloading? && e in n.reload.left && e in n.table.states then
        Forget(n, n.table.states[e].nodeID).(reload := n.reload.(left := n.reload.left - {e}))
      else n
    case FinishReload =>
      if n.reload.Reloading? && n.reload.left == {} then
        n.(table := Table(Retargeted(n.table.states, n.reload.endpoints), Distinct(n.reload.endpoints)),
           reload := NoReload)
      else n
    case LocalWrite(op) => if op.OpSetRemote? then n else n.(dir := Runs.After(n.dir, op))
  }

  function Exec(n: Node, evs: seq<Event>): Node {
    if evs == [] then n else Step(Exec(n, evs[..|evs| - 1]), evs[|evs| - 1])
  }

  /** A node as NewPeers leaves it. */
  function Started(local: string, endpoints: seq<string>): Node {
    Node(local, EmptyDirectory, SetEndpoints(View(NoPeers, map[]), endpoints).table, Idle, NoReload, {})
  }

  // -------------------------------------------------------------- invariant

  /** The ID the puller is about to clear. */
  predicate AboutToClear(p: Puller, id: string) {
    (p.Withdrawing? && p.previous == id) || (p.Clearing? && p.id == id)
  }

  /** No registry write of the puller is outstanding. */
  predicate Quiet(p: Puller) { !p.Withdrawing? && !p.Storing? && !p.Clearing? }

  /** An online endpoint answers for `id`, and the reload in progress, if any, keeps it or has yet to clear it. */
  ghost predicate Vouched(n: Node, id: string) {
    exists e <- n.table.states ::
      && n.table.states[e].online && n.table.states[e].nodeID == id
      && (n.reload.Reloading? ==> e in n.reload.endpoints || e in n.reload.left)
  }

  /** The endpoint of a pull past its unlock still answers for the pulled node, unless a reload has dropped it. */
  ghost predicate PullerSound(n: Node) {
    match n.puller
    case Asked(_, id, _, _) => OtherID(n, id)
    case Answered(_, id, _, _, _) => OtherID(n, id)
    case Withdrawing(e, previous, id, _, _, dropped) => OtherID(n, id) && previous != id && (dropped || Backed(n, e, id))
    case Storing(e, id, _, _, dropped) => OtherID(n, id) && (dropped || Backed(n, e, id))
    case _ => true
  }

  ghost predicate OtherID(n: Node, id: string) { id != "" && id != n.local }

  ghost predicate Backed(n: Node, e: string, id: string) {
    && e in n.table.states && n.table.states[e].online && n.table.states[e].nodeID == id
    && (n.reload.Reloading? ==> e in n.reload.endpoints)
  }

  ghost predicate Accounted(n: Node, id: string) {
    Vouched(n, id) || AboutToClear(n.puller, id) || id in n.orphans
  }

  ghost predicate Inv(n: Node) {
    && TableSound(n.table, n.local)
    && PullerSound(n)
    && (forall id <- n.dir.remote :: Accounted(n, id) && n.dir.remote[id] != map[])
    && n.orphans <= n.dir.remote.Keys
    && (n.reload.Reloading? ==> forall e <- n.reload.left :: e in n.table.states)
  }

  /** The locked part leaves the same table as the whole pull would. */
  lemma LockTableSound(n: Node, at: int)
    requires Inv(n)
    ensures TableSound(LockStep(n, at).table, n.local)
  {
    match n.puller
    case Answered(e, id, name, list, _) => PullSound(View(n.table, map[]), e, Fetched(id, name, list, at), n.local);
    case Failing(e, cause, _) => PullSound(View(n.table, map[]), e, Failed(cause), n.local);
    case _ =>
  }

  lemma OnlineHasID(n: Node)
    requires TableSound(n.table, n.local)
    ensures forall e <- n.table.states :: n.table.states[e].online ==> n.table.states[e].nodeID != ""
  {}

  lemma LockKeepsAccounts(n: Node, at: int, id: string)
    requires n.reload.NoReload? && Accounted(n, id) && Quiet(n.puller)
    requires forall e <- n.table.states :: n.table.states[e].online ==> n.table.states[e].nodeID != ""
    ensures Accounted(LockStep(n, at), id)
  {
    var n' := LockStep(n, at);
    assert n.table.states.Keys == n'.table.states.Keys;
    if Vouched(n, id) && !AboutToClear(n'.puller, id) {
      var e :| e in n.table.states && n.table.states[e].online && n.table.states[e].nodeID == id;
      assert e in n'.table.states && n'.table.states[e].online && n'.table.states[e].nodeID == id;
    }
  }

  lemma LockKeepsInv(n: Node, at: int)
    requires Inv(n) && n.reload.NoReload?
    ensures Inv(LockStep(n, at))
  {
    LockTableSound(n, at);
    hide TableSound, Accounted;
    if Quiet(n.puller) {
      forall id <- n.dir.remote ensures Accounted(LockStep(n, at), id) {
        assert forall e <- n.table.states :: n.table.states[e].online ==> n.table.states[e].nodeID != "" by {
          OnlineHasID(n);
        }
        LockKeepsAccounts(n, at, id);
      }
    }
  }

  /** A cleared node needs no account any more; the others keep theirs. */
  lemma ForgetKeepsAccounts(n: Node, n': Node, id: string)
    requires n'.table == n.table && n'.reload == n.reload
    requires n'.orphans == n.orphans - {id} && n'.dir.remote == n.dir.remote - {id}
    requires forall i :: AboutToClear(n.puller, i) ==> i == id
    requires forall i <- n.dir.remote :: Accounted(n, i)
    ensures forall i <- n'.dir.remote :: Accounted(n', i)
  {
    forall i <- n'.dir.remote ensures Accounted(n', i) { assert Vouched(n, i) ==> Vouched(n', i); }
  }

  lemma StoreKeepsAccounts(n: Node)
    requires Inv(n) && n.puller.Storing?
    ensures forall i <- WriteStep(n).dir.remote :: Accounted(WriteStep(n), i)
  {
    hide Collect, TableSound;
    var n' := WriteStep(n);
    forall i <- n'.dir.remote ensures Accounted(n', i) {
      assert Vouched(n, i) ==> Vouched(n', i);
      if i == n.puller.id && !n.puller.dropped { assert Backed(n, n.puller.endpoint, i); }
    }
  }

  lemma WriteKeepsInv(n: Node)
    requires Inv(n)
    ensures Inv(WriteStep(n))
  {
    hide Collect, TableSound, Vouched;
    match n.puller
    case Withdrawing(_, previous, _, _, _, _) => ForgetKeepsAccounts(n, WriteStep(n), previous);
    case Storing(_, _, _, _, _) => StoreKeepsAccounts(n);
    case Clearing(id, _) => ForgetKeepsAccounts(n, WriteStep(n), id);
    case _ =>
  }

  lemma BeginKeepsInv(n: Node, endpoints: seq<string>)
    requires Inv(n) && n.reload.NoReload?
    ensures Inv(Step(n, BeginReload(endpoints)))
  {
    var n' := Step(n, BeginReload(endpoints));
    forall id <- n'.dir.remote ensures Accounted(n', id) {
      if Vouched(n, id) {
        var e :| e in n.table.states && n.table.states[e].online && n.table.states[e].nodeID == id;
        assert e in endpoints || e in n'.reload.left;
      }
    }
  }

  lemma ClearKeepsInv(n: Node, dropped: string)
    requires Inv(n)
    ensures Inv(Step(n, ReloadClears(dropped)))
  {
    hide TableSound;
    var n' := Step(n, ReloadClears(dropped));
    forall id <- n'.dir.remote ensures Accounted(n', id) {
      if Vouched(n, id) {
        var e :| e in n.table.states && n.table.states[e].online && n.table.states[e].nodeID == id
                 && (n.reload.Reloading? ==> e in n.reload.endpoints || e in n.reload.left);
        assert e in n'.table.states && (n'.reload.Reloading? ==> e in n'.reload.endpoints || e in n'.reload.left);
      }
    }
  }

  lemma FinishKeepsInv(n: Node)
    requires Inv(n)
    ensures Inv(Step(n, FinishReload))
  {
    var n' := Step(n, FinishReload);
    if n.reload.Reloading? && n.reload.left == {} {
      SetEndpointsSound(View(n.table, n.dir.remote), n.reload.endpoints, n.local);
      forall id <- n'.dir.remote ensures Accounted(n', id) {
        if Vouched(n, id) {
          var e :| e in n.table.states && n.table.states[e].online && n.table.states[e].nodeID == id
                   && e in n.reload.endpoints;
          assert n'.table.states[e] == n.table.states[e];
        }
      }
    }
  }

  lemma LocalKeepsRemote(d: Directory, op: Runs.Op)
    requires !op.OpSetRemote?
    ensures Runs.After(d, op).remote == d.remote
  {}

  lemma StepKeepsInv(n: Node, ev: Event)
    requires Inv(n)
    ensures Inv(Step(n, ev))
  {
    match ev
    case Lock(at) => if n.reload.NoReload? { LockKeepsInv(n, at); }
    case Write => WriteKeepsInv(n);
    case BeginReload(endpoints) => if n.reload.NoReload? { BeginKeepsInv(n, endpoints); }
    case ReloadClears(e) => ClearKeepsInv(n, e);
    case FinishReload => FinishKeepsInv(n);
    case LocalWrite(op) =>
      if !op.OpSetRemote? {
        LocalKeepsRemote(n.dir, op);
        SameAccounts(n, Step(n, ev));
      }
    case _ => SameAccounts(n, Step(n, ev));
  }

  /** Steps that touch neither the table, the remote tier nor a pending write keep every account. */
  lemma SameAccounts(n: Node, n': Node)
    requires Inv(n)
    requires n'.table == n.table && n'.reload == n.reload && n'.orphans == n.orphans && n'.local == n.local
    requires n'.dir.remote == n.dir.remote
    requires PullerSound(n')
    requires forall id :: AboutToClear(n'.puller, id) == AboutToClear(n.puller, id)
    ensures Inv(n')
  {
    forall id <- n'.dir.remote ensures Accounted(n', id) {
      assert Vouched(n, id) == Vouched(n', id);
    }
  }

  lemma {:induction false} ExecKeepsInv(local: string, endpoints: seq<string>, evs: seq<Event>)
    ensures Inv(Exec(Started(local, endpoints), evs))
  {
    if evs == [] {
      SetEndpointsSound(View(NoPeers, map[]), endpoints, local);
    } else {
      ExecKeepsInv(local, endpoints, evs[..|evs| - 1]);
      StepKeepsInv(Exec(Started(local, endpoints), evs[..|evs| - 1]), evs[|evs| - 1]);
    }
  }

  // ------------------------------------------------------ withdrawal safety

  /**
   Whatever the interleaving, each node in the remote tier has an online
   configured endpoint, or is about to be cleared by the puller, or was last
   written by a pull whose endpoint a reload dropped after the puller's unlock.
   */
  lemma WithdrawalSafety(local: string, endpoints: seq<string>, evs: seq<Event>, id: string)
    ensures var n := Exec(Started(local, endpoints), evs);
            id in n.dir.remote ==> Online(n.table, id) || AboutToClear(n.puller, id) || id in n.orphans
  {
    var n := Exec(Started(local, endpoints), evs);
    ExecKeepsInv(local, endpoints, evs);
    if id in n.dir.remote && Vouched(n, id) { assert Online(n.table, id); }
  }

  /** Between the puller's writes the remote tier is free of stale nodes exactly when every orphan is online again. */
  lemma QuietIsSafeIffOrphansOnline(local: string, endpoints: seq<string>, evs: seq<Event>)
    ensures var n := Exec(Started(local, endpoints), evs);
            Quiet(n.puller) ==>
              ((forall id <- n.dir.remote :: Online(n.table, id)) <==> (forall id <- n.orphans :: Online(n.table, id)))
  {
    var n := Exec(Started(local, endpoints), evs);
    ExecKeepsInv(local, endpoints, evs);
    if Quiet(n.puller) && forall id <- n.orphans :: Online(n.table, id) {
      forall id <- n.dir.remote ensures Online(n.table, id) { WithdrawalSafety(local, endpoints, evs, id); }
    }
  }

  // ------------------------------------------------- the write that goes astray

  /** The puller is about to store a list that is not empty for an endpoint a reload has dropped. */
  predicate StoresForDropped(p: Puller) { p.Storing? && p.dropped && Collect(p.list, p.id, true) != map[] }

  /**
   From a state with no stale node, a store leaves one exactly when it is for a
   dropped endpoint and no other endpoint answers for its node.
   */
  lemma StoreIsSafeIff(n: Node)
    requires Inv(n) && n.orphans == {} && n.puller.Storing?
    ensures (forall id <- WriteStep(n).dir.remote :: Online(WriteStep(n).table, id)) <==>
              !(StoresForDropped(n.puller) && !Online(n.table, n.puller.id))
  {
    StoreKeepsAccounts(n);
    hide Collect, TableSound;
    var n' := WriteStep(n);
    forall id <- n'.dir.remote | id !in n'.orphans ensures Online(n'.table, id) {
      assert Accounted(n', id);
    }
  }

  /** Such a store, when the table that is in force, or about to be, has no online endpoint for its node. */
  ghost predicate StrayWrite(n: Node) { StoresForDropped(n.puller) && !Vouched(n, n.puller.id) }

  /** The invariant without the history variable. */
  ghost predicate Clean(n: Node) { Inv(n.(orphans := {})) }

  /** Steps do not look at the history variable. */
  lemma StepIgnoresOrphans(n: Node, ev: Event)
    ensures Step(n.(orphans := {}), ev).(orphans := {}) == Step(n, ev).(orphans := {})
  {
    hide Collect, Runs.After, Retargeted, Distinct;
  }

  lemma CleanStep(n: Node, ev: Event)
    requires Clean(n) && (ev.Write? ==> !StrayWrite(n))
    ensures Clean(Step(n, ev))
  {
    var m := n.(orphans := {});
    StepKeepsInv(m, ev);
    StepIgnoresOrphans(n, ev);
    var m' := Step(m, ev);
    OrphanIsVouched(m, ev);
    hide Step, TableSound, Vouched, Collect;
    assert m'.(orphans := {}) == Step(n, ev).(orphans := {});
    forall id <- m'.dir.remote ensures Accounted(m'.(orphans := {}), id) {
      assert Accounted(m', id);
      VouchedWithout(m', id);
    }
    assert PullerSound(m'.(orphans := {}));
  }

  lemma VouchedWithout(n: Node, id: string)
    ensures Vouched(n.(orphans := {}), id) == Vouched(n, id)
  {}

  /** The only orphan a step can make where there was none is the store's own. */
  lemma OrphanIsVouched(m: Node, ev: Event)
    requires Inv(m) && m.orphans == {} && (ev.Write? ==> !StrayWrite(m))
    ensures forall id <- Step(m, ev).orphans :: Vouched(Step(m, ev), id)
  {
    hide Collect, TableSound, Retargeted, Distinct, Runs.After;
    var m' := Step(m, ev);
    forall id <- m'.orphans ensures Vouched(m', id) {
      assert ev.Write? && m.puller.Storing? && m.puller.dropped && id == m.puller.id;
      assert Vouched(m, id);
    }
  }

  /** No write of the run goes astray. */
  ghost predicate NoStrayWrite(n: Node, evs: seq<Event>) {
    forall k :: 0 <= k < |evs| && evs[k].Write? ==> !StrayWrite(Exec(n, evs[..k]))
  }

  /** Each node in the remote tier has an online endpoint that stays, or one that the reload in progress has yet to clear. */
  ghost predicate Fresh(n: Node) { forall id <- n.dir.remote :: Vouched(n, id) }

  lemma {:induction false} NoStrayWriteIsClean(local: string, endpoints: seq<string>, evs: seq<Event>)
    requires NoStrayWrite(Started(local, endpoints), evs)
    ensures Clean(Exec(Started(local, endpoints), evs))
  {
    hide StrayWrite, Inv, Step;
    var s := Started(local, endpoints);
    if evs == [] {
      ExecKeepsInv(local, endpoints, []);
      assert s.(orphans := {}) == s;
    } else {
      var k := |evs| - 1;
      var init := evs[..k];
      forall j | 0 <= j < |init| && init[j].Write? ensures !StrayWrite(Exec(s, init[..j])) {
        assert init[..j] == evs[..j] && init[j] == evs[j];
      }
      NoStrayWriteIsClean(local, endpoints, init);
      CleanStep(Exec(s, init), evs[k]);
    }
  }

  lemma StrayWriteIsStale(n: Node)
    requires StrayWrite(n)
    ensures Quiet(WriteStep(n).puller) && !Fresh(WriteStep(n))
  {
    hide Collect;
    var n' := WriteStep(n);
    assert n.puller.id in n'.dir.remote;
    assert Vouched(n', n.puller.id) == Vouched(n, n.puller.id);
  }

  /**
   Exactly the runs without a stray write are never seen stale: at every moment
   of the run at which the puller has no write outstanding, each node in the
   remote tier has an online endpoint that stays, or one that the reload in
   progress drops and has yet to clear.
   */
  lemma NeverStaleIffNoStrayWrite(local: string, endpoints: seq<string>, evs: seq<Event>)
    ensures var s := Started(local, endpoints);
            (forall k :: 0 <= k <= |evs| && Quiet(Exec(s, evs[..k]).puller) ==> Fresh(Exec(s, evs[..k])))
            <==> NoStrayWrite(s, evs)
  {
    hide StrayWrite, Inv, Step, Started, Exec, Fresh, Quiet;
    var s := Started(local, endpoints);
    if NoStrayWrite(s, evs) {
      forall k | 0 <= k <= |evs| && Quiet(Exec(s, evs[..k]).puller) ensures Fresh(Exec(s, evs[..k])) {
        forall j | 0 <= j < k && evs[..k][j].Write? ensures !StrayWrite(Exec(s, evs[..k][..j])) {
          assert evs[..k][..j] == evs[..j] && evs[..k][j] == evs[j];
        }
        NoStrayWriteIsClean(local, endpoints, evs[..k]);
        QuietCleanIsFresh(Exec(s, evs[..k]));
      }
    } else {
      var k :| 0 <= k < |evs| && evs[k].Write? && StrayWrite(Exec(s, evs[..k]));
      StrayWriteIsStale(Exec(s, evs[..k]));
      assert evs[..k + 1] == evs[..k] + [evs[k]];
      ExecOne(s, evs[..k], evs[k]);
      assert Step(Exec(s, evs[..k]), evs[k]) == WriteStep(Exec(s, evs[..k])) by { StepOfWrite(Exec(s, evs[..k])); }
    }
  }

  lemma StepOfWrite(n: Node)
    ensures Step(n, Write) == WriteStep(n)
  {}

  lemma QuietCleanIsFresh(n: Node)
    requires Clean(n) && Quiet(n.puller)
    ensures Fresh(n)
  {
    hide TableSound, Vouched;
    forall id <- n.dir.remote ensures Vouched(n, id) {
      assert Accounted(n.(orphans := {}), id);
      VouchedWithout(n, id);
    }
  }

  /** Outside a reload, fresh is what the tables of uninterrupted runs are: every node has an online endpoint. */
  lemma FreshIsCovered(n: Node)
    requires n.reload.NoReload?
    ensures Fresh(n) <==> forall id <- n.dir.remote :: Online(n.table, id)
  {
    hide TableSound;
    forall id ensures Vouched(n, id) <==> Online(n.table, id) {}
  }

  /**
   Passes converge from the states of interleaved runs under the same exact
   conditions, whatever stray writes the run had: what such a write left
   stands in the way until an endpoint remembers or reports its node again.
   A third pass never changes anything.
   */
  lemma InterleavedPassesConverge(local: string, endpoints: seq<string>, evs: seq<Event>,
                                  net: string -> Fetch, later: string -> Fetch, last: string -> Fetch)
    requires Passes.DistinctReports(Exec(Started(local, endpoints), evs).table.order, net, local)
    requires Passes.SameButClock(net, later) && Passes.SameButClock(later, last)
    ensures var n := Exec(Started(local, endpoints), evs);
            var v, es := View(n.table, n.dir.remote), n.table.order;
            var v2 := PullAll(PullAll(v, net, local), later, local);
            && TableSound(n.table, local)
            && (PullAll(v, net, local).remote == Passes.Goal(es, net, local) <==>
                 Passes.Undisturbed(v, net, local) && Passes.NothingLeftOver(v, net, local))
            && (v2.remote == Passes.Goal(es, net, local) <==>
                 && Passes.NothingLeftOver(v, net, local)
                 && forall i :: 0 <= i < |es| && Passes.Reachable(net, local, es[i]) && Passes.Shadowed(v, net, local, i)
                      ==> Passes.Sent(net, es[i]) == map[])
            && PullAll(v2, last, local).remote == v2.remote
  {
    hide Step, Exec, PullAll, Passes.Goal, Passes.Undisturbed, Passes.Shadowed, Passes.Sent, Passes.NothingLeftOver, Collect;
    var n := Exec(Started(local, endpoints), evs);
    ExecKeepsInv(local, endpoints, evs);
    ExecKeepsLocal(Started(local, endpoints), evs);
    var v := View(n.table, n.dir.remote);
    Passes.OnePassConvergesIff(v, net, local);
    Passes.TwoPassesConvergeIff(v, net, later, local);
    Passes.ThirdPassSameRemote(v, net, later, last, local);
  }

  /**
   Between writes and reloads of a run without a stray write nothing is left
   over: two passes suffice when no failing endpoint remembers an ID another one
   reports, and one when no endpoint at all does.
   */
  lemma CleanPassesConverge(local: string, endpoints: seq<string>, evs: seq<Event>, net: string -> Fetch, later: string -> Fetch)
    requires NoStrayWrite(Started(local, endpoints), evs)
    requires var n := Exec(Started(local, endpoints), evs); Quiet(n.puller) && n.reload.NoReload?
    requires Passes.DistinctReports(Exec(Started(local, endpoints), evs).table.order, net, local)
    requires Passes.SameButClock(net, later)
    ensures var n := Exec(Started(local, endpoints), evs);
            var v, es := View(n.table, n.dir.remote), n.table.order;
            && TableSound(n.table, local) && Passes.NothingLeftOver(v, net, local)
            && ((forall a <- es, b <- es :: Passes.Reachable(net, local, a) && !Passes.Reachable(net, local, b)
                   ==> n.table.states[b].nodeID != net(a).id)
                ==> PullAll(PullAll(v, net, local), later, local).remote == Passes.Goal(es, net, local))
            && ((forall a <- es, b <- es :: a != b && Passes.Reachable(net, local, a)
                   ==> n.table.states[b].nodeID != net(a).id)
                ==> PullAll(v, net, local).remote == Passes.Goal(es, net, local))
  {
    hide StrayWrite, Step, Exec, PullAll, Passes.Goal, Passes.Sent, Collect;
    var n := Exec(Started(local, endpoints), evs);
    NoStrayWriteIsClean(local, endpoints, evs);
    ExecKeepsLocal(Started(local, endpoints), evs);
    QuietCleanIsFresh(n);
    FreshIsCovered(n);
    var v := View(n.table, n.dir.remote);
    assert Covered(v);
    Passes.CoveredIsKnown(v, net, local);
    Passes.OnePassConvergesIff(v, net, local);
    Passes.TwoPassesConvergeIff(v, net, later, local);
    hide Passes.NothingLeftOver, Covered, Fresh, Clean;
  }

  // ------------------------------------------------ a condition on reloads alone

  /** No reload of the run drops the endpoint of a pull between that pull's unlock and its registry write. */
  ghost predicate NoMidPullDrop(n: Node, evs: seq<Event>) {
    forall k :: 0 <= k < |evs| && evs[k].BeginReload? ==>
      var p := Exec(n, evs[..k]).puller;
      p.Withdrawing? || p.Storing? ==> p.endpoint in evs[k].endpoints
  }

  predicate HasDropped(p: Puller) { (p.Withdrawing? || p.Storing?) && p.dropped }

  lemma {:induction false} NoMidPullDropNoOrphans(n: Node, evs: seq<Event>)
    requires NoMidPullDrop(n, evs)
    requires n.orphans == {} && !HasDropped(n.puller)
    ensures Exec(n, evs).orphans == {} && !HasDropped(Exec(n, evs).puller)
  {
    if evs != [] {
      var k := |evs| - 1;
      var init := evs[..k];
      forall j | 0 <= j < |init| && init[j].BeginReload?
        ensures var p := Exec(n, init[..j]).puller; p.Withdrawing? || p.Storing? ==> p.endpoint in init[j].endpoints
      {
        assert init[..j] == evs[..j] && init[j] == evs[j];
      }
      NoMidPullDropNoOrphans(n, init);
      NoOrphanStep(Exec(n, init), evs[k]);
    }
  }

  lemma NoOrphanStep(n: Node, ev: Event)
    requires n.orphans == {} && !HasDropped(n.puller)
    requires ev.BeginReload? && (n.puller.Withdrawing? || n.puller.Storing?) ==> n.puller.endpoint in ev.endpoints
    ensures Step(n, ev).orphans == {} && !HasDropped(Step(n, ev).puller)
  {
    hide Collect, Retargeted, Distinct;
  }

  /** In runs without such a reload, whenever the puller is between writes a node without an online endpoint has no services. */
  lemma NoStaleServices(local: string, endpoints: seq<string>, evs: seq<Event>, id: string)
    requires NoMidPullDrop(Started(local, endpoints), evs)
    ensures var n := Exec(Started(local, endpoints), evs);
            Quiet(n.puller) && !Online(n.table, id) ==> id !in n.dir.remote
    ensures var n := Exec(Started(local, endpoints), evs);
            Quiet(n.puller) ==> TableSound(n.table, local) && Covered(View(n.table, n.dir.remote))
  {
    NoMidPullDropNoOrphans(Started(local, endpoints), evs);
    ExecKeepsInv(local, endpoints, evs);
    ExecKeepsLocal(Started(local, endpoints), evs);
    var n := Exec(Started(local, endpoints), evs);
    if Quiet(n.puller) {
      forall i <- n.dir.remote ensures Online(n.table, i) { WithdrawalSafety(local, endpoints, evs, i); }
    }
  }

  lemma {:induction false} ExecKeepsLocal(n: Node, evs: seq<Event>)
    ensures Exec(n, evs).local == n.local
  {
    hide Collect, Retargeted, Distinct;
    if evs != [] { ExecKeepsLocal(n, evs[..|evs| - 1]); }
  }

  lemma ExecOne(n: Node, evs: seq<Event>, ev: Event)
    ensures Exec(n, evs + [ev]) == Step(Exec(n, evs), ev)
  {
    hide Step;
    assert (evs + [ev])[..|evs|] == evs;
  }

  ghost predicate Reachable(local: string, endpoints: seq<string>, n: Node) {
    exists evs :: Exec(Started(local, endpoints), evs) == n
  }

  /** Reachable by a run with no reload. */
  ghost predicate Unreloaded(local: string, endpoints: seq<string>, n: Node) {
    exists evs: seq<Event> :: Exec(Started(local, endpoints), evs) == n && forall ev <- evs :: !ev.BeginReload?
  }

  lemma UnreloadedStep(local: string, endpoints: seq<string>, n: Node, ev: Event)
    requires Unreloaded(local, endpoints, n) && !ev.BeginReload?
    ensures Unreloaded(local, endpoints, Step(n, ev)) && Reachable(local, endpoints, Step(n, ev))
  {
    var evs: seq<Event> :| Exec(Started(local, endpoints), evs) == n && forall ev <- evs :: !ev.BeginReload?;
    ExecOne(Started(local, endpoints), evs, ev);
  }

  lemma ReachableStep(local: string, endpoints: seq<string>, n: Node, ev: Event)
    requires Reachable(local, endpoints, n)
    ensures Reachable(local, endpoints, Step(n, ev))
  {
    var evs :| Exec(Started(local, endpoints), evs) == n;
    ExecOne(Started(local, endpoints), evs, ev);
  }

  /** The first pull of the only endpoint, up to its unlock. */
  lemma PullUpToUnlock(local: string, e: string, id: string, list: seq<Service>) returns (n: Node)
    requires id != "" && id != local
    ensures Unreloaded(local, [e], n) && Reachable(local, [e], n)
    ensures n.puller == Storing(e, id, list, [], false) && n.reload == NoReload && n.dir == EmptyDirectory
    ensures n.table.states.Keys == {e} && n.table.states[e].nodeID == id && n.table.order == [e]
  {
    var s := Started(local, [e]);
    assert s.table == Table(map[e := NewPeer(e)], [e]) by {
      assert [e][..0] == [];
      assert Distinct([e][..0]) == [];
    }
    assert Exec(s, []) == s;
    UnreloadedStep(local, [e], s, StartPass);
    var a := Step(s, StartPass);
    UnreloadedStep(local, [e], a, InfoOk(id, ""));
    var b := Step(a, InfoOk(id, ""));
    UnreloadedStep(local, [e], b, ServicesOk(list));
    var c := Step(b, ServicesOk(list));
    UnreloadedStep(local, [e], c, Lock(0));
    n := Step(c, Lock(0));
  }

  /** The first pass over the only endpoint, to its end. */
  lemma FirstPassStores(local: string, e: string, id: string, list: seq<Service>) returns (n: Node)
    requires id != "" && id != local
    ensures Unreloaded(local, [e], n)
    ensures n.puller == Idle && n.reload == NoReload && n.table.order == [e]
    ensures n.table.states.Keys == {e} && n.table.states[e].nodeID == id
    ensures At(n.dir.remote, id) == Collect(list, id, true)
  {
    hide Collect;
    var a := PullUpToUnlock(local, e, id, list);
    UnreloadedStep(local, [e], a, Write);
    var b := Step(a, Write);
    UnreloadedStep(local, [e], b, FinishPass);
    hide Unreloaded, Reachable;
    n := Step(b, FinishPass);
  }

  /** A reload to an empty list, started and finished while that pull's store is outstanding. */
  lemma ReloadToNothing(local: string, n: Node, e: string, id: string, list: seq<Service>) returns (n': Node)
    requires Reachable(local, [e], n)
    requires n.puller == Storing(e, id, list, [], false) && n.reload == NoReload && n.dir == EmptyDirectory
    requires n.table.states.Keys == {e} && n.table.states[e].nodeID == id != ""
    ensures Reachable(local, [e], n')
    ensures n'.puller == Storing(e, id, list, [], true) && n'.reload == NoReload && n'.table == NoPeers
    ensures n'.dir.remote == map[]
  {
    ReachableStep(local, [e], n, BeginReload([]));
    var a := Step(n, BeginReload([]));
    assert a.reload.left == {e};
    ReachableStep(local, [e], a, ReloadClears(e));
    var b := Step(a, ReloadClears(e));
    assert b.reload.left == {};
    ReachableStep(local, [e], b, FinishReload);
    n' := Step(b, FinishReload);
    assert Retargeted(b.table.states, []) == map[];
  }

  /**
   That reload does happen, and then the services stay: some run ends with the
   puller idle, no reload in progress, no endpoint configured, and the dropped
   endpoint's node, with everything it sent, in the remote tier.
   */
  lemma DroppedMidPullLeavesServices(local: string, e: string, id: string, list: seq<Service>)
    requires id != "" && id != local
    requires Collect(list, id, true) != map[]
    ensures exists evs ::
              var n := Exec(Started(local, [e]), evs);
              && n.puller == Idle && n.reload == NoReload && n.table == NoPeers
              && n.dir.remote == map[id := Collect(list, id, true)] && !Online(n.table, id) && n.orphans == {id}
  {
    hide Collect;
    var n := PullUpToUnlock(local, e, id, list);
    var a := ReloadToNothing(local, n, e, id, list);
    ReachableStep(local, [e], a, Write);
    var b := Step(a, Write);
    var evs :| Exec(Started(local, [e]), evs) == a;
    ExecKeepsInv(local, [e], evs);
    ReachableStep(local, [e], b, FinishPass);
    var c := Step(b, FinishPass);
    assert c.orphans == {id};
    var all :| Exec(Started(local, [e]), all) == c;
  }

  // ------------------------------------------------- what the remote tier holds

  /** The step writes the node `id`, be it to store or to clear it. */
  predicate Touches(n: Node, ev: Event, id: string) {
    match ev
    case Write =>
      match n.puller {
        case Withdrawing(_, previous, _, _, _, _) => previous == id
        case Storing(_, i, _, _, _) => i == id
        case Clearing(i, _) => i == id
        case _ => false
      }
    case ReloadClears(e) =>
      n.reload.Reloading? && e in n.reload.left && e in n.table.states && n.table.states[e].nodeID == id
    case _ => false
  }

  /** The step stores a list that is not empty under `id`. */
  predicate Stores(n: Node, ev: Event, id: string) {
    ev.Write? && n.puller.Storing? && n.puller.id == id && Collect(n.puller.list, id, true) != map[]
  }

  lemma PutAt(remote: map<string, Tier>, i: string, list: seq<Service>, id: string)
    ensures At(Put(remote, i, list), id) == if i == id then Collect(list, i, true) else At(remote, id)
  {
    hide Collect;
  }

  lemma WriteTouches(n: Node, id: string)
    ensures At(WriteStep(n).dir.remote, id) ==
            if Stores(n, Write, id) then Collect(n.puller.list, id, true)
            else if Touches(n, Write, id) then map[] else At(n.dir.remote, id)
  {
    match n.puller
    case Storing(_, i, list, _, _) => PutAt(n.dir.remote, i, list, id);
    case _ =>
    hide Collect, Put;
  }

  lemma StepTouches(n: Node, ev: Event, id: string)
    ensures At(Step(n, ev).dir.remote, id) ==
            if Stores(n, ev, id) then Collect(n.puller.list, id, true)
            else if Touches(n, ev, id) then map[] else At(n.dir.remote, id)
  {
    WriteTouches(n, id);
    hide Collect, Retargeted, Distinct, Runs.After, WriteStep, Strayed;
    assert LockStep(n, if ev.Lock? then ev.at else 0).dir == n.dir;
    hide LockStep;
    if ev.LocalWrite? && !ev.op.OpSetRemote? { LocalKeepsRemote(n.dir, ev.op); }
  }

  /** Step `k` of the run stores a list that is not empty under `id`, and no later one writes that node. */
  ghost predicate StoredAt(n: Node, evs: seq<Event>, id: string, k: nat) {
    && k < |evs| && Stores(Exec(n, evs[..k]), evs[k], id)
    && forall m :: k < m < |evs| ==> !Touches(Exec(n, evs[..m]), evs[m], id)
  }

  lemma StoredLonger(n: Node, evs: seq<Event>, id: string, k: nat)
    requires k < |evs| - 1
    ensures StoredAt(n, evs, id, k) <==>
              StoredAt(n, evs[..|evs| - 1], id, k) && !Touches(Exec(n, evs[..|evs| - 1]), evs[|evs| - 1], id)
  {
    hide Stores, Touches, Exec;
    var init := evs[..|evs| - 1];
    assert forall m | 0 <= m < |init| :: init[..m] == evs[..m] && init[m] == evs[m];
  }

  /**
   Whatever the interleaving and whoever shares IDs with whom, a node holds
   something exactly when some write stored it and none has touched it since,
   and then it holds that list.
   */
  lemma {:induction false} HeldIffStored(n: Node, evs: seq<Event>, id: string)
    requires At(n.dir.remote, id) == map[]
    ensures At(Exec(n, evs).dir.remote, id) != map[] <==> exists k: nat :: StoredAt(n, evs, id, k)
    ensures forall k: nat :: StoredAt(n, evs, id, k) ==>
              At(Exec(n, evs).dir.remote, id) == Collect(Exec(n, evs[..k]).puller.list, id, true)
  {
    if evs != [] {
      var last := |evs| - 1;
      var init := evs[..last];
      HeldIffStored(n, init, id);
      StepTouches(Exec(n, init), evs[last], id);
      StoresTouches(Exec(n, init), evs[last], id);
      LastStored(n, evs, id);
      hide Collect, Step, At, Touches, Stores, StoredAt;
      assert Exec(n, evs) == Step(Exec(n, init), evs[last]);
      forall k: nat | k < last
        ensures StoredAt(n, evs, id, k) <==> StoredAt(n, init, id, k) && !Touches(Exec(n, init), evs[last], id)
        ensures init[..k] == evs[..k]
      {
        StoredLonger(n, evs, id, k);
      }
      hide Exec;
      if Stores(Exec(n, init), evs[last], id) {
        assert StoredAt(n, evs, id, last);
      } else if k: nat :| StoredAt(n, init, id, k) {
        InRun(n, init, id, k);
        assert !Touches(Exec(n, init), evs[last], id) ==> StoredAt(n, evs, id, k);
      }
      forall k: nat | StoredAt(n, evs, id, k) ensures k < last || k == last { InRun(n, evs, id, k); }
    }
  }

  lemma InRun(n: Node, evs: seq<Event>, id: string, k: nat)
    requires StoredAt(n, evs, id, k)
    ensures k < |evs|
  {}

  lemma LastStored(n: Node, evs: seq<Event>, id: string)
    requires evs != []
    ensures var k := |evs| - 1; StoredAt(n, evs, id, k) <==> Stores(Exec(n, evs[..k]), evs[k], id)
  {
    hide Stores, Touches, Exec;
  }

  lemma StoresTouches(n: Node, ev: Event, id: string)
    ensures Stores(n, ev, id) ==> Touches(n, ev, id)
  {}

  /**
   What Nodes reports for any endpoint at any moment of any run: what is known of
   it, and as many services as the list that some write stored under its node's
   ID, if none has touched that node since.
   */
  lemma ReportIsHeld(local: string, endpoints: seq<string>, evs: seq<Event>, e: string)
    requires e in Exec(Started(local, endpoints), evs).table.states
    ensures var s := Started(local, endpoints);
            var n := Exec(s, evs);
            var row := Report(View(n.table, n.dir.remote), e);
            && row.peer == n.table.states[e]
            && (row.services > 0 <==> exists k: nat :: StoredAt(s, evs, row.peer.nodeID, k))
            && (forall k: nat :: StoredAt(s, evs, row.peer.nodeID, k) ==>
                 row.services == |Collect(Exec(s, evs[..k]).puller.list, row.peer.nodeID, true)|)
  {
    var s := Started(local, endpoints);
    var n := Exec(s, evs);
    var id := n.table.states[e].nodeID;
    HeldIffStored(s, evs, id);
    if id == "" { NoNamelessStore(local, endpoints, evs); }
    hide Collect, Exec, Started, StoredAt;
    assert |At(n.dir.remote, id)| > 0 <==> At(n.dir.remote, id) != map[];
  }

  /**
   What Nodes reports for an offline peer at any moment of any run: services
   exactly when some write stored a list under its node's ID and none has
   touched that node since. Then another endpoint is online under that ID, or
   the puller is about to clear it, or a reload dropped its endpoint in mid-pull.
   */
  lemma OfflineReport(local: string, endpoints: seq<string>, evs: seq<Event>, e: string)
    requires var t := Exec(Started(local, endpoints), evs).table; e in t.states && !t.states[e].online
    ensures var s := Started(local, endpoints);
            var n := Exec(s, evs);
            var id, told := n.table.states[e].nodeID, Report(View(n.table, n.dir.remote), e).services;
            && (told > 0 <==> exists k: nat :: StoredAt(s, evs, id, k))
            && (forall k: nat :: StoredAt(s, evs, id, k) ==> told == |Collect(Exec(s, evs[..k]).puller.list, id, true)|)
            && (told > 0 ==>
                 || (exists o <- n.table.states :: o != e && n.table.states[o].online && n.table.states[o].nodeID == id)
                 || AboutToClear(n.puller, id) || id in n.orphans)
  {
    var s := Started(local, endpoints);
    var n := Exec(s, evs);
    var id := n.table.states[e].nodeID;
    ReportIsHeld(local, endpoints, evs, e);
    WithdrawalSafety(local, endpoints, evs, id);
    hide Collect, Exec, Started, StoredAt;
    if id in n.dir.remote && Online(n.table, id) {
      var o :| o in n.table.states && n.table.states[o].online && n.table.states[o].nodeID == id;
      assert o != e;
    }
  }

  /**
   The clear does lag behind: with one endpoint, hence distinct IDs, and no
   reload at all, Nodes can be asked when `markOffline` has unlocked and not yet
   cleared, and then reports every service of a peer it calls offline.
   */
  lemma OfflineBeforeItsClear(local: string, e: string, id: string, list: seq<Service>, cause: string)
    requires id != "" && id != local
    ensures exists n ::
              && Unreloaded(local, [e], n) && n.table.states.Keys == {e} && !n.table.states[e].online
              && AboutToClear(n.puller, id)
              && Report(View(n.table, n.dir.remote), e).services == |Collect(list, id, true)|
  {
    hide Collect;
    var b := FirstPassStores(local, e, id, list);
    UnreloadedStep(local, [e], b, StartPass);
    var c := Step(b, StartPass);
    UnreloadedStep(local, [e], c, InfoFailed(cause));
    var d := Step(c, InfoFailed(cause));
    UnreloadedStep(local, [e], d, Lock(0));
    var m := Step(d, Lock(0));
    hide Unreloaded, Reachable;
    assert d.puller == Failing(e, cause, []) && d.table == b.table && d.dir == b.dir;
    assert m.table.states.Keys == {e} && !m.table.states[e].online && m.table.states[e].nodeID == id;
    assert m.dir == b.dir && m.puller == Clearing(id, []);
  }

  lemma NoNamelessStore(local: string, endpoints: seq<string>, evs: seq<Event>)
    ensures forall k: nat :: !StoredAt(Started(local, endpoints), evs, "", k)
  {
    hide Collect;
    forall k: nat | k < |evs| ensures !Stores(Exec(Started(local, endpoints), evs[..k]), evs[k], "") {
      ExecKeepsInv(local, endpoints, evs[..k]);
    }
  }

  /** And then no pass over the configured endpoints, none here, converges: the dropped node is in the way. */
  lemma LeftoversBlockConvergence(local: string, e: string, id: string, list: seq<Service>, net: string -> Fetch)
    requires id != "" && id != local
    requires Collect(list, id, true) != map[]
    ensures exists evs ::
              var n := Exec(Started(local, [e]), evs);
              var v := View(n.table, n.dir.remote);
              && n.puller == Idle && n.reload == NoReload
              && Passes.Goal(n.table.order, net, local) == map[] && PullAll(v, net, local) == v && v.remote != map[]
              && TableSound(n.table, local)
              && Passes.Undisturbed(v, net, local) && !Passes.NothingLeftOver(v, net, local)
  {
    hide Collect;
    DroppedMidPullLeavesServices(local, e, id, list);
    var evs :| var n := Exec(Started(local, [e]), evs);
               && n.puller == Idle && n.reload == NoReload && n.table == NoPeers
               && n.dir.remote == map[id := Collect(list, id, true)] && !Online(n.table, id) && n.orphans == {id};
    var n := Exec(Started(local, [e]), evs);
    assert id in n.dir.remote;
  }

  /** The node `id` is no endpoint's, and the puller neither carries it nor is about to touch it. */
  ghost predicate Unheard(n: Node, id: string) {
    && (forall e <- n.table.states :: n.table.states[e].nodeID != id)
    && match n.puller
       case Asked(_, i, _, _) => i != id
       case Answered(_, i, _, _, _) => i != id
       case Withdrawing(_, previous, i, _, _, _) => i != id && previous != id
       case Storing(_, i, _, _, _) => i != id
       case Clearing(i, _) => i != id
       case _ => true
  }

  lemma UnheardLock(n: Node, at: int, id: string)
    requires Unheard(n, id)
    ensures Unheard(LockStep(n, at), id) && LockStep(n, at).dir == n.dir
  {}

  lemma UnheardWrite(n: Node, id: string)
    requires Unheard(n, id)
    ensures Unheard(WriteStep(n), id) && At(WriteStep(n).dir.remote, id) == At(n.dir.remote, id)
  {
    hide Collect;
  }

  lemma UnheardStep(n: Node, ev: Event, id: string)
    requires Unheard(n, id) && id != "" && (ev.InfoOk? ==> ev.id != id)
    ensures Unheard(Step(n, ev), id) && At(Step(n, ev).dir.remote, id) == At(n.dir.remote, id)
  {
    hide LockStep, WriteStep, Distinct, Runs.After;
    if ev.Lock? { UnheardLock(n, ev.at, id); }
    if ev.Write? { UnheardWrite(n, id); }
    if ev.LocalWrite? && !ev.op.OpSetRemote? { LocalKeepsRemote(n.dir, ev.op); }
  }

  /** Nothing but the node itself answering some endpoint ever removes what such a node left behind. */
  lemma {:induction false} LeftoversStay(n: Node, evs: seq<Event>, id: string)
    requires Unheard(n, id) && id != ""
    requires forall k :: 0 <= k < |evs| && evs[k].InfoOk? ==> evs[k].id != id
    ensures Unheard(Exec(n, evs), id) && At(Exec(n, evs).dir.remote, id) == At(n.dir.remote, id)
  {
    hide Step, Unheard;
    if evs != [] {
      LeftoversStay(n, evs[..|evs| - 1], id);
      UnheardStep(Exec(n, evs[..|evs| - 1]), evs[|evs| - 1], id);
    }
  }

  // -------------------------------------------- uninterrupted steps are the methods

  /** `n'` is `n` after the whole pull of its next endpoint, which yielded `f`. */
  ghost predicate PullDone(n: Node, n': Node, f: Fetch)
    requires n.puller.Between? && n.puller.todo != []
  {
    && View(n'.table, n'.dir.remote) == Pull(View(n.table, n.dir.remote), n.puller.todo[0], f, n.local)
    && n'.dir == n.dir.(remote := n'.dir.remote)
    && n'.puller == Between(n.puller.todo[1..]) && n'.reload == n.reload && n'.local == n.local
  }

  lemma FailingSteps(n: Node, a: Node, cause: string, at: int)
    requires n.puller.Between? && n.puller.todo != [] && n.reload.NoReload?
    requires a == n.(puller := Failing(n.puller.todo[0], cause, n.puller.todo[1..]))
    ensures PullDone(n, Step(Step(a, Lock(at)), Write), Failed(cause))
  {
    assert Step(a, Lock(at)) == LockStep(a, at);
  }

  /** A request that fails, the first or the second, and a node that answers without a usable ID. */
  lemma FailedPullSteps(n: Node, cause: string, id: string, name: string, at: int)
    requires n.puller.Between? && n.puller.todo != [] && n.reload.NoReload?
    ensures PullDone(n, Step(Step(Step(n, InfoFailed(cause)), Lock(at)), Write), Failed(cause))
    ensures id != "" && id != n.local ==>
              PullDone(n, Step(Step(Step(Step(n, InfoOk(id, name)), ServicesFailed(cause)), Lock(at)), Write), Failed(cause))
    ensures id == "" || id == n.local ==>
              PullDone(n, Step(Step(Step(n, InfoOk(id, name)), Lock(at)), Write), Failed(if id == "" then NoID else OwnID))
  {
    var e, rest := n.puller.todo[0], n.puller.todo[1..];
    assert Step(n, InfoFailed(cause)) == n.(puller := Failing(e, cause, rest));
    FailingSteps(n, Step(n, InfoFailed(cause)), cause, at);
    var a := Step(n, InfoOk(id, name));
    if id == "" || id == n.local {
      FailingSteps(n, a, if id == "" then NoID else OwnID, at);
    } else {
      assert a == n.(puller := Asked(e, id, name, rest));
      FailingSteps(n, Step(a, ServicesFailed(cause)), cause, at);
    }
  }

  lemma FetchedPullSteps(n: Node, id: string, name: string, list: seq<Service>, at: int)
    requires n.puller.Between? && n.puller.todo != [] && n.reload.NoReload?
    requires id != "" && id != n.local
    ensures PullDone(n, Step(Step(Step(Step(Step(n, InfoOk(id, name)), ServicesOk(list)), Lock(at)), Write), Write),
                     Fetched(id, name, list, at))
  {
    hide Collect;
    var e, rest := n.puller.todo[0], n.puller.todo[1..];
    var a := Step(Step(n, InfoOk(id, name)), ServicesOk(list));
    assert a == n.(puller := Answered(e, id, name, list, rest));
    var b := Step(a, Lock(at));
    assert b == LockStep(a, at);
    var c := Step(b, Write);
    assert c == WriteStep(b);
  }

  /** The events of an uninterrupted pull that yields `f`. */
  function PullScript(f: Fetch, local: string): seq<Event> {
    match f
    case Failed(cause) => [InfoFailed(cause), Lock(0), Write]
    case Fetched(id, name, list, at) =>
      if id == "" || id == local then [InfoOk(id, name), Lock(at), Write]
      else [InfoOk(id, name), ServicesOk(list), Lock(at), Write, Write]
  }

  /** A pull whose steps nothing interrupts is module Peering's Pull, at whichever request it fails. */
  lemma PullIsItsSteps(n: Node, f: Fetch, id: string, name: string, cause: string, at: int)
    requires n.puller.Between? && n.puller.todo != [] && n.reload.NoReload?
    ensures PullDone(n, Exec(n, PullScript(f, n.local)), f)
    ensures id != "" && id != n.local ==>
              PullDone(n, Exec(n, [InfoOk(id, name), ServicesFailed(cause), Lock(at), Write]), Failed(cause))
  {
    FailedPullSteps(n, cause, id, name, at);
    Exec4(n, InfoOk(id, name), ServicesFailed(cause), Lock(at), Write);
    match f
    case Failed(c) =>
      FailedPullSteps(n, c, id, name, 0);
      Exec3(n, InfoFailed(c), Lock(0), Write);
    case Fetched(i, who, list, then_) =>
      if i == "" || i == n.local {
        FailedPullSteps(n, cause, i, who, then_);
        Exec3(n, InfoOk(i, who), Lock(then_), Write);
        hide Step;
        RefusedIsFailed(n, f);
      } else {
        FetchedPullSteps(n, i, who, list, then_);
        Exec4(n, InfoOk(i, who), ServicesOk(list), Lock(then_), Write);
        var four := [InfoOk(i, who), ServicesOk(list), Lock(then_), Write];
        ExecOne(n, four, Write);
        assert PullScript(f, n.local) == four + [Write];
      }
  }

  lemma RefusedIsFailed(n: Node, f: Fetch)
    requires n.puller.Between? && n.puller.todo != [] && f.Fetched? && (f.id == "" || f.id == n.local)
    ensures forall n' :: PullDone(n, n', f) <==> PullDone(n, n', Failed(if f.id == "" then NoID else OwnID))
  {}

  lemma Exec3(n: Node, a: Event, b: Event, c: Event)
    ensures Exec(n, [a, b, c]) == Step(Step(Step(n, a), b), c)
  {
    hide Step;
    assert Exec(n, []) == n;
    ExecOne(n, [], a);
    ExecOne(n, [a], b);
    ExecOne(n, [a, b], c);
    assert [] + [a] == [a] && [a] + [b] == [a, b] && [a, b] + [c] == [a, b, c];
  }

  lemma Exec4(n: Node, a: Event, b: Event, c: Event, d: Event)
    ensures Exec(n, [a, b, c, d]) == Step(Step(Step(Step(n, a), b), c), d)
  {
    hide Step, Exec;
    Exec3(n, a, b, c);
    ExecOne(n, [a, b, c], d);
    assert [a, b, c] + [d] == [a, b, c, d];
  }

  /**
   What a failed pull does, at either request: the endpoint goes offline with the
   cause, keeping what it was, the node it remembered is withdrawn, and nothing
   else about any endpoint or node changes.
   */
  lemma FailureWithdraws(n: Node, id: string, name: string, cause: string, at: int, atServices: bool)
    requires n.puller.Between? && n.puller.todo != [] && n.reload.NoReload?
    requires n.puller.todo[0] in n.table.states && id != "" && id != n.local
    ensures var e := n.puller.todo[0];
            var n' := Exec(n, if atServices then [InfoOk(id, name), ServicesFailed(cause), Lock(at), Write]
                              else [InfoFailed(cause), Lock(at), Write]);
            var was := n.table.states[e].nodeID;
            && e in n'.table.states && !n'.table.states[e].online && n'.table.states[e].lastErr == cause
            && n'.table.states[e].endpoint == n.table.states[e].endpoint && n'.table.states[e].nodeID == was
            && n'.table.states[e].nodeName == n.table.states[e].nodeName
            && n'.table.states[e].lastSeen == n.table.states[e].lastSeen
            && (was != "" ==> At(n'.dir.remote, was) == map[])
            && (forall o :: o != was || was == "" ==> At(n'.dir.remote, o) == At(n.dir.remote, o))
            && n'.table.states.Keys == n.table.states.Keys && n'.table.order == n.table.order
            && (forall o <- n.table.states :: o != e ==> n'.table.states[o] == n.table.states[o])
            && n'.puller == Between(n.puller.todo[1..])
  {
    PullIsItsSteps(n, Failed(cause), id, name, cause, at);
    FailedPullSteps(n, cause, id, name, at);
    Exec3(n, InfoFailed(cause), Lock(at), Write);
    hide Step, Exec, WriteStep, LockStep;
  }

  /**
   What an accepted pull does: the endpoint is online as the node that answered,
   that node's directory is the sanitized list, the node the endpoint was before
   is withdrawn, and nothing else changes.
   */
  lemma SuccessStores(n: Node, id: string, name: string, list: seq<Service>, at: int)
    requires n.puller.Between? && n.puller.todo != [] && n.reload.NoReload?
    requires n.puller.todo[0] in n.table.states && id != "" && id != n.local
    ensures var e := n.puller.todo[0];
            var n' := Exec(n, [InfoOk(id, name), ServicesOk(list), Lock(at), Write, Write]);
            var was := n.table.states[e].nodeID;
            && e in n'.table.states
            && n'.table.states[e] == Peer(n.table.states[e].endpoint, id, name, true, Some(at), "")
            && At(n'.dir.remote, id) == Collect(list, id, true)
            && (was != "" && was != id ==> At(n'.dir.remote, was) == map[])
            && (forall o :: o != id && (o != was || was == "") ==> At(n'.dir.remote, o) == At(n.dir.remote, o))
            && n'.table.states.Keys == n.table.states.Keys && n'.table.order == n.table.order
            && (forall o <- n.table.states :: o != e ==> n'.table.states[o] == n.table.states[o])
            && n'.puller == Between(n.puller.todo[1..])
  {
    PullIsItsSteps(n, Fetched(id, name, list, at), id, name, "", at);
    hide Step, Exec, WriteStep, LockStep, Collect;
  }

  /** Any other writer of the directory does to it what the registry does, and touches nothing of the puller's. */
  lemma LocalWriteIsTheRegistry(n: Node, op: Runs.Op)
    requires !op.OpSetRemote?
    ensures Step(n, LocalWrite(op)).dir == Runs.Run(n.dir, [op])
    ensures Step(n, LocalWrite(op)) == n.(dir := Step(n, LocalWrite(op)).dir)
    ensures Step(n, LocalWrite(op)).dir.remote == n.dir.remote
  {
    LocalKeepsRemote(n.dir, op);
    hide Runs.After;
    assert [op][..0] == [];
    assert Runs.Run(n.dir, [op][..0]) == n.dir;
  }

  lemma {:induction false} ExecAppend(n: Node, a: seq<Event>, b: seq<Event>)
    ensures Exec(n, a + b) == Exec(Exec(n, a), b)
  {
    hide Step;
    if b == [] {
      assert a + b == a;
    } else {
      var k := |b| - 1;
      ExecAppend(n, a, b[..k]);
      assert (a + b)[..|a + b| - 1] == a + b[..k];
    }
  }

  /** The events of pulling `es` one after the other. */
  function PassScript(es: seq<string>, net: string -> Fetch, local: string): seq<Event> {
    if es == [] then []
    else PassScript(es[..|es| - 1], net, local) + PullScript(net(es[|es| - 1]), local)
  }

  lemma {:induction false} PassSteps(n: Node, es: seq<string>, net: string -> Fetch)
    requires n.puller.Between? && es <= n.puller.todo && n.reload.NoReload?
    ensures var n' := Exec(n, PassScript(es, net, n.local));
            && View(n'.table, n'.dir.remote) == Pass(View(n.table, n.dir.remote), es, net, n.local)
            && n'.dir == n.dir.(remote := n'.dir.remote)
            && n'.puller == Between(n.puller.todo[|es|..]) && n'.reload == n.reload && n'.local == n.local
  {
    hide Step, Pull, Exec;
    if es == [] {
      ExecNone(n);
    } else {
      var k := |es| - 1;
      PassSteps(n, es[..k], net);
      var m := Exec(n, PassScript(es[..k], net, n.local));
      assert m.puller.todo[0] == es[k];
      PullIsItsSteps(m, net(es[k]), "", "", "", 0);
      ExecAppend(n, PassScript(es[..k], net, n.local), PullScript(net(es[k]), n.local));
      assert m.puller.todo[1..] == n.puller.todo[|es|..];
    }
  }

  lemma ExecNone(n: Node)
    ensures Exec(n, []) == n
  {}

  /** A pass whose steps nothing interrupts, from start to finish, is PullAll. */
  lemma PassIsItsSteps(n: Node, net: string -> Fetch)
    requires n.puller.Idle? && n.reload.NoReload?
    ensures var n' := Exec(n, [StartPass] + PassScript(n.table.order, net, n.local) + [FinishPass]);
            && View(n'.table, n'.dir.remote) == PullAll(View(n.table, n.dir.remote), net, n.local)
            && n'.dir == n.dir.(remote := n'.dir.remote) && n'.puller == Idle && n'.reload == NoReload
  {
    var a := Step(n, StartPass);
    assert a == n.(puller := Between(n.table.order));
    ExecNone(n);
    ExecOne(n, [], StartPass);
    assert [] + [StartPass] == [StartPass];
    PassSteps(a, n.table.order, net);
    ExecAppend(n, [StartPass], PassScript(n.table.order, net, n.local));
    ExecOne(n, [StartPass] + PassScript(n.table.order, net, n.local), FinishPass);
    hide Exec, Pass, PassScript;
  }

  function Clears(es: seq<string>): seq<Event> { seq(|es|, i requires 0 <= i < |es| => ReloadClears(es[i])) }

  /** `m` is `n` with the nodes of `done` cleared. */
  ghost predicate Cleared(n: Node, m: Node, done: seq<string>)
    requires n.reload.Reloading? && forall e <- done :: e in n.table.states
  {
    && m.reload == n.reload.(left := n.reload.left - (set e <- done))
    && m.table == n.table
    && m.dir.remote == n.dir.remote - (set e <- done :: n.table.states[e].nodeID)
  }

  lemma ClearOneMore(n: Node, m: Node, done: seq<string>, e: string)
    requires n.reload.Reloading? && e in n.reload.left && e in n.table.states && e !in done
    requires forall d <- done :: d in n.table.states
    requires Cleared(n, m, done)
    ensures forall d <- done + [e] :: d in n.table.states
    ensures Cleared(n, Step(m, ReloadClears(e)), done + [e])
  {
    var more := done + [e];
    assert (set d <- more) == (set d <- done) + {e};
    assert (set d <- more :: n.table.states[d].nodeID) ==
           (set d <- done :: n.table.states[d].nodeID) + {n.table.states[e].nodeID};
  }

  /** Clearing the dropped endpoints one by one, in any order, clears exactly their nodes. */
  lemma {:induction false} ClearsClear(n: Node, es: seq<string>)
    requires n.reload.Reloading? && NoRepeats(es) && forall e <- es :: e in n.reload.left && e in n.table.states
    ensures Cleared(n, Exec(n, Clears(es)), es)
  {
    hide Step;
    if es != [] {
      var k := |es| - 1;
      var init := es[..k];
      assert es == init + [es[k]];
      assert Clears(es) == Clears(init) + [ReloadClears(es[k])];
      ClearsClear(n, init);
      ExecOne(n, Clears(init), ReloadClears(es[k]));
      assert es[k] !in init;
      ClearOneMore(n, Exec(n, Clears(init)), init, es[k]);
    }
  }

  /** A reload whose steps nothing interrupts is module Peering's SetEndpoints. */
  lemma ReloadIsItsSteps(n: Node, endpoints: seq<string>, es: seq<string>)
    requires n.reload.NoReload? && NoRepeats(es)
    requires forall e :: e in es <==> e in n.table.states && e !in endpoints && n.table.states[e].nodeID != ""
    ensures var n' := Step(Exec(Step(n, BeginReload(endpoints)), Clears(es)), FinishReload);
            && View(n'.table, n'.dir.remote) == SetEndpoints(View(n.table, n.dir.remote), endpoints)
            && n'.reload == NoReload
  {
    var n1 := Step(n, BeginReload(endpoints));
    assert n1.reload.left == set e <- es;
    ClearsClear(n1, es);
    assert (set e <- es :: n.table.states[e].nodeID) == DroppedIDs(n.table.states, endpoints);
  }
}
