/** The tracker and the redeployer as a transition system whose steps are single API calls.

    trackCluster and stopTrackingCluster hold the write lock from beginning to end;
    redeployAllShards takes its snapshot under the read lock and then applies without a lock.
    Any API call may fail, with or without having taken effect. Two ghost records account for
    every difference between the deployments that exist and those the maps ask for. */
module Interleaving {
  import opened ShardTypes
  import opened Rendering
  import opened Deployments
  import opened Tracking

  /** What the holder of the write lock is doing; rank is the component of its next call. */
  datatype Lock =
    | Free
    | MovingOut(cluster: Cluster, target: Shard, rank: nat)
    | MovingIn(cluster: Cluster, target: Shard, rank: nat)
    | Emptying(shard: Shard, rank: nat)

  /** The shards the redeployer has still to do, and the component it is at in the first one. */
  datatype Redeployer = Redeployer(queue: seq<Shard>, rank: nat)

  /** Why a deployment of a shard without clusters exists. */
  datatype Cause =
    | Inherited       // it was there when the controller started
    | PartialDeploy   // applied by a deploy that then failed
    | FailedUndeploy  // not reached by an undeploy that failed after the cluster was erased
    | StaleRedeploy   // applied by a redeploy whose snapshot was taken earlier

  datatype System = System(
    maps: Maps,
    store: Store,
    lock: Lock,
    redeployer: Redeployer,
    missing: set<Key>,
    ledger: map<Key, Cause>)

  datatype Action =
    | BeginTrack(cluster: Cluster, shard: Shard)
    | BeginStop(cluster: Cluster)
    | LockedCall(reply: Reply, content: Content)
    | Snapshot(order: seq<Shard>)
    | RedeployCall(reply: Reply, content: Content)

  function Start(store: Store): System {
    System(INITIAL.maps, store, Free, Redeployer([], 0), {}, map k | k in store :: Inherited)
  }

  // ---------- Deployments asked for and deployments in excess ----------

  /** A shard that is to have its deployments. */
  predicate Active(m: Maps, s: Shard) {
    s != DEFAULT_SHARD && Members(m, s) != {}
  }

  function Desired(m: Maps): set<Key> {
    set s, k | s in m.shardMap && Active(m, s) && k in KeysOf(s) :: k
  }

  // ---------- Steps ----------

  /** After the old shard, if any, is dealt with: the cluster leaves its old set, and either the
      new shard is deployed or the move is recorded at once. */
  function Enter(sys: System, c: Cluster, k: Shard): System {
    var detached := Detach(sys.maps, c);
    if Members(detached, k) == {} && k != DEFAULT_SHARD then sys.(maps := detached, lock := MovingIn(c, k, 0))
    else sys.(maps := Attach(detached, c, k), lock := Free)
  }

  function BeginTrackStep(sys: System, c: Cluster, k: Shard): System {
    var s := Recorded(sys.maps, c);
    if c in sys.maps.clusterMap && s == k then sys
    else if LastOfOld(sys.maps, c) && s != DEFAULT_SHARD then sys.(lock := MovingOut(c, k, 0))
    else Enter(sys, c, k)
  }

  function BeginStopStep(sys: System, c: Cluster): System {
    var s := Recorded(sys.maps, c);
    var m := Forget(sys.maps, c);
    if c in Members(sys.maps, s) && Members(m, s) == {} && s != DEFAULT_SHARD then
      sys.(maps := m, lock := Emptying(s, 0), missing := sys.missing - KeysOf(s))
    else sys.(maps := m)
  }

  function Effects(rank: nat, reply: Reply): nat {
    if reply == Refused then rank else rank + 1
  }

  /** One deletion of trackCluster's undeploy. The shard still has its cluster meanwhile. */
  function MoveOutStep(sys: System, reply: Reply): System
    requires sys.lock.MovingOut? && sys.lock.rank < COMPONENT_COUNT
  {
    var c, k, i := sys.lock.cluster, sys.lock.target, sys.lock.rank;
    var s := Recorded(sys.maps, c);
    var key := Key(At(i), s);
    var called := if reply == Refused then sys
                  else sys.(store := sys.store - {key}, ledger := sys.ledger - {key}, missing := sys.missing + {key});
    if reply != Done then called.(lock := Free, ledger := called.ledger - KeysOf(s))
    else if i + 1 < COMPONENT_COUNT then called.(lock := MovingOut(c, k, i + 1))
    else Enter(called.(missing := called.missing - KeysOf(s)), c, k)
  }

  /** One apply of trackCluster's deploy. */
  function MoveInStep(sys: System, reply: Reply, content: Content): System
    requires sys.lock.MovingIn? && sys.lock.rank < COMPONENT_COUNT
  {
    var c, k, i := sys.lock.cluster, sys.lock.target, sys.lock.rank;
    var called := if reply == Refused then sys else sys.(store := sys.store[Key(At(i), k) := content]);
    if reply != Done then
      called.(lock := Free, ledger := called.ledger + map x | x in FirstKeys(k, Effects(i, reply)) :: PartialDeploy)
    else if i + 1 < COMPONENT_COUNT then called.(lock := MovingIn(c, k, i + 1))
    else called.(lock := Free, maps := Attach(called.maps, c, k), ledger := called.ledger - KeysOf(k))
  }

  /** One deletion of stopTrackingCluster's undeploy. The cluster is already erased. */
  function EmptyStep(sys: System, reply: Reply): System
    requires sys.lock.Emptying? && sys.lock.rank < COMPONENT_COUNT
  {
    var s, i := sys.lock.shard, sys.lock.rank;
    var key := Key(At(i), s);
    var called := if reply == Refused then sys
                  else sys.(store := sys.store - {key}, ledger := sys.ledger - {key});
    if reply != Done then
      var left := set x | x in KeysOf(s) - FirstKeys(s, Effects(i, reply)) && x in called.store;
      called.(lock := Free, ledger := called.ledger + map x | x in left :: FailedUndeploy)
    else if i + 1 < COMPONENT_COUNT then called.(lock := Emptying(s, i + 1))
    else called.(lock := Free)
  }

  /** The shard of the key no longer has clusters, or is about to lose its last one and the
      deployment has already been deleted for that. */
  predicate Stale(sys: System, k: Key) {
    || !Active(sys.maps, k.shard)
    || (sys.lock.MovingOut? && Recorded(sys.maps, sys.lock.cluster) == k.shard && Rank(k.component) < sys.lock.rank)
  }

  function RedeployStep(sys: System, reply: Reply, content: Content): System
    requires sys.redeployer.queue != [] && sys.redeployer.rank < COMPONENT_COUNT
  {
    var queue, i := sys.redeployer.queue, sys.redeployer.rank;
    var key := Key(At(i), queue[0]);
    var called := if reply == Refused then sys
                  else sys.(store := sys.store[key := content], missing := sys.missing - {key},
                            ledger := if Stale(sys, key) then sys.ledger[key := StaleRedeploy] else sys.ledger);
    if reply != Done then called.(redeployer := Redeployer([], 0))
    else if i + 1 < COMPONENT_COUNT then called.(redeployer := Redeployer(queue, i + 1))
    else called.(redeployer := Redeployer(queue[1..], 0))
  }

  ghost predicate Enabled(sys: System, a: Action) {
    match a
    case BeginTrack(_, _) => sys.lock.Free?
    case BeginStop(_) => sys.lock.Free?
    case LockedCall(_, _) =>
      (sys.lock.MovingOut? || sys.lock.MovingIn? || sys.lock.Emptying?) && sys.lock.rank < COMPONENT_COUNT
    case Snapshot(order) =>
      && sys.lock.Free? && sys.redeployer.queue == []
      && (forall s :: s in order <==> Active(sys.maps, s))
      && (forall i, j :: 0 <= i < j < |order| ==> order[i] != order[j])
    case RedeployCall(_, _) => sys.redeployer.queue != [] && sys.redeployer.rank < COMPONENT_COUNT
  }

  function Next(sys: System, a: Action): System
    requires Enabled(sys, a)
  {
    match a
    case BeginTrack(c, k) => BeginTrackStep(sys, c, k)
    case BeginStop(c) => BeginStopStep(sys, c)
    case LockedCall(reply, content) =>
      if sys.lock.MovingOut? then MoveOutStep(sys, reply)
      else if sys.lock.MovingIn? then MoveInStep(sys, reply, content)
      else EmptyStep(sys, reply)
    case Snapshot(order) => sys.(redeployer := Redeployer(order, 0))
    case RedeployCall(reply, content) => RedeployStep(sys, reply, content)
  }

  /** The sequence of states is a run of the system. */
  ghost predicate IsRun(states: seq<System>, actions: seq<Action>) {
    && |states| == |actions| + 1
    && (exists store :: states[0] == Start(store))
    && (forall i :: 0 <= i < |actions| ==>
          Enabled(states[i], actions[i]) && states[i + 1] == Next(states[i], actions[i]))
  }

  // ---------- The invariant ----------

  /** What the lock holder relies on. */
  ghost predicate LockSound(sys: System) {
    match sys.lock
    case Free => true
    case MovingOut(c, k, i) =>
      && c in sys.maps.clusterMap && sys.maps.clusterMap[c] != k && sys.maps.clusterMap[c] != DEFAULT_SHARD
      && Members(sys.maps, sys.maps.clusterMap[c]) == {c} && i < COMPONENT_COUNT
    case MovingIn(c, k, i) =>
      && k != DEFAULT_SHARD && Members(sys.maps, k) == {} && i < COMPONENT_COUNT
      && (forall s :: c !in Members(sys.maps, s))
      && (forall x :: x in FirstKeys(k, i) ==> x in sys.store)
    case Emptying(s, i) => s != DEFAULT_SHARD && Members(sys.maps, s) == {} && i < COMPONENT_COUNT
  }

  /** A deployment in excess that the lock holder has yet to account for. */
  ghost predicate InProgress(lock: Lock, k: Key) {
    || (lock.MovingIn? && k.shard == lock.target && Rank(k.component) < lock.rank)
    || (lock.Emptying? && k.shard == lock.shard && Rank(k.component) >= lock.rank)
  }

  /** missing holds exactly the deployments of active shards that do not exist. */
  ghost predicate MissingExact(sys: System) {
    forall k :: k in sys.missing <==> Active(sys.maps, k.shard) && k !in sys.store
  }

  /** Every deployment in the ledger exists and is in excess or about to be; every one in excess
      is in the ledger or still in the lock holder's hands. */
  ghost predicate LedgerExact(sys: System) {
    && (forall k :: k in sys.ledger ==> k in sys.store && Stale(sys, k))
    && (forall k :: k in sys.store && Stale(sys, k) ==> k in sys.ledger || InProgress(sys.lock, k))
  }

  ghost predicate Inv(sys: System) {
    && Agree(sys.maps)
    && LockSound(sys)
    && (sys.redeployer.queue != [] ==> sys.redeployer.rank < COMPONENT_COUNT)
    && MissingExact(sys)
    && LedgerExact(sys)
  }

  lemma StartInv(store: Store)
    ensures Inv(Start(store))
  {}

  lemma EnterInv(sys: System, c: Cluster, k: Shard)
    requires Agree(sys.maps) && MissingExact(sys.(maps := Detach(sys.maps, c)))
    requires LedgerExact(sys.(maps := Detach(sys.maps, c), lock := Free))
    requires !(c in sys.maps.clusterMap && sys.maps.clusterMap[c] == k)
    requires sys.redeployer.queue != [] ==> sys.redeployer.rank < COMPONENT_COUNT
    ensures Inv(Enter(sys, c, k))
  {
    var detached := Detach(sys.maps, c);
    DetachKeepsAgreement(sys.maps, c);
    AttachKeepsAgreement(detached, c, k);
    hide Agree, Detach;
    if !(Members(detached, k) == {} && k != DEFAULT_SHARD) {
      forall t
        ensures Active(Attach(detached, c, k), t) == Active(detached, t)
      {}
    }
  }

  lemma BeginTrackInv(sys: System, c: Cluster, k: Shard)
    requires Inv(sys) && sys.lock.Free?
    ensures Inv(BeginTrackStep(sys, c, k))
  {
    DetachKeepsAgreement(sys.maps, c);
    var s := Recorded(sys.maps, c);
    if !(c in sys.maps.clusterMap && s == k) && !(LastOfOld(sys.maps, c) && s != DEFAULT_SHARD) {
      assert forall t :: Active(Detach(sys.maps, c), t) == Active(sys.maps, t);
      EnterInv(sys, c, k);
    }
  }

  lemma BeginStopInv(sys: System, c: Cluster)
    requires Inv(sys) && sys.lock.Free?
    ensures Inv(BeginStopStep(sys, c))
  {
    ForgetKeepsAgreement(sys.maps, c);
    var after, s := BeginStopStep(sys, c), Recorded(sys.maps, c);
    forall x: Key
      ensures x in after.missing <==> Active(after.maps, x.shard) && x !in after.store
      ensures x in after.ledger ==> x in after.store && Stale(after, x)
      ensures x in after.store && Stale(after, x) ==> x in after.ledger || InProgress(after.lock, x)
    {
      ActiveForgotten(sys.maps, c, x.shard);
    }
    hide Agree, Forget, Members;
  }

  lemma ActiveForgotten(m: Maps, c: Cluster, t: Shard)
    requires Agree(m)
    ensures Active(Forget(m, c), t) ==> Active(m, t)
    ensures Active(m, t) && !Active(Forget(m, c), t) ==>
              t == Recorded(m, c) && c in Members(m, t) && Members(Forget(m, c), t) == {}
  {
    ForgetKeepsAgreement(m, c);
  }

  lemma MoveOutFailsInv(sys: System, reply: Reply)
    requires Inv(sys) && sys.lock.MovingOut? && reply != Done
    ensures Inv(MoveOutStep(sys, reply))
  {
    RankIsKey(Recorded(sys.maps, sys.lock.cluster), sys.lock.rank);
  }

  lemma MoveOutContinuesInv(sys: System)
    requires Inv(sys) && sys.lock.MovingOut? && sys.lock.rank + 1 < COMPONENT_COUNT
    ensures Inv(MoveOutStep(sys, Done))
  {
    RankIsKey(Recorded(sys.maps, sys.lock.cluster), sys.lock.rank);
  }

  lemma DetachLast(m: Maps, c: Cluster, t: Shard)
    requires Agree(m) && LastOfOld(m, c)
    ensures Active(Detach(m, c), t) == (Active(m, t) && t != Recorded(m, c))
  {
    DetachKeepsAgreement(m, c);
    assert t != Recorded(m, c) ==> c !in Members(m, t);
  }

  /** The system once the last deletion is done, before the cluster is moved on. */
  function Emptied(sys: System): System
    requires sys.lock.MovingOut? && sys.lock.rank < COMPONENT_COUNT
  {
    var s := Recorded(sys.maps, sys.lock.cluster);
    var key := Key(At(sys.lock.rank), s);
    sys.(store := sys.store - {key}, ledger := sys.ledger - {key}, missing := sys.missing + {key} - KeysOf(s))
  }

  lemma EmptiedIsExact(sys: System)
    requires Inv(sys) && sys.lock.MovingOut? && sys.lock.rank + 1 == COMPONENT_COUNT
    ensures var left := Emptied(sys).(maps := Detach(sys.maps, sys.lock.cluster), lock := Free);
            MissingExact(left) && LedgerExact(left)
  {
    var c, i := sys.lock.cluster, sys.lock.rank;
    var left := Emptied(sys).(maps := Detach(sys.maps, c), lock := Free);
    RankIsKey(Recorded(sys.maps, c), i);
    forall k: Key
      ensures k in left.missing <==> Active(left.maps, k.shard) && k !in left.store
      ensures k in left.ledger ==> k in left.store && Stale(left, k)
      ensures k in left.store && Stale(left, k) ==> k in left.ledger
    {
      DetachLast(sys.maps, c, k.shard);
    }
  }

  lemma MoveOutEndsInv(sys: System)
    requires Inv(sys) && sys.lock.MovingOut? && sys.lock.rank + 1 == COMPONENT_COUNT
    ensures Inv(MoveOutStep(sys, Done))
  {
    EmptiedIsExact(sys);
    EnterInv(Emptied(sys), sys.lock.cluster, sys.lock.target);
  }

  lemma MoveOutInv(sys: System, reply: Reply)
    requires Inv(sys) && sys.lock.MovingOut?
    ensures Inv(MoveOutStep(sys, reply))
  {
    if reply != Done {
      MoveOutFailsInv(sys, reply);
    } else if sys.lock.rank + 1 < COMPONENT_COUNT {
      MoveOutContinuesInv(sys);
    } else {
      MoveOutEndsInv(sys);
    }
  }

  lemma RankIsKey(s: Shard, i: nat)
    requires i < COMPONENT_COUNT
    ensures forall x: Key :: x.shard == s && Rank(x.component) == i <==> x == Key(At(i), s)
  {}

  lemma MoveInFailsInv(sys: System, reply: Reply, content: Content)
    requires Inv(sys) && sys.lock.MovingIn? && reply != Done
    ensures Inv(MoveInStep(sys, reply, content))
  {
    hide Agree, Members;
    var k, i := sys.lock.target, sys.lock.rank;
    var after := MoveInStep(sys, reply, content);
    RankIsKey(k, i);
    forall x: Key
      ensures x in after.missing <==> Active(after.maps, x.shard) && x !in after.store
      ensures x in after.ledger ==> x in after.store && Stale(after, x)
      ensures x in after.store && Stale(after, x) ==> x in after.ledger
    {
      assert x in after.ledger <==> x in sys.ledger || x in FirstKeys(k, Effects(i, reply));
      assert x in after.store <==> x in sys.store || (reply == Lost && x == Key(At(i), k));
    }
  }

  lemma MoveInContinuesInv(sys: System, content: Content)
    requires Inv(sys) && sys.lock.MovingIn? && sys.lock.rank + 1 < COMPONENT_COUNT
    ensures Inv(MoveInStep(sys, Done, content))
  {
    RankIsKey(sys.lock.target, sys.lock.rank);
  }

  lemma ActiveAttached(m: Maps, c: Cluster, k: Shard, t: Shard)
    requires k != DEFAULT_SHARD
    ensures Active(Attach(m, c, k), t) == (Active(m, t) || t == k)
  {
    assert c in Members(Attach(m, c, k), k);
  }

  lemma MoveInEndsExact(sys: System, content: Content, x: Key)
    requires Inv(sys) && sys.lock.MovingIn? && sys.lock.rank + 1 == COMPONENT_COUNT
    ensures var after := MoveInStep(sys, Done, content);
            && (x in after.missing <==> Active(after.maps, x.shard) && x !in after.store)
            && (x in after.ledger ==> x in after.store && Stale(after, x))
            && (x in after.store && Stale(after, x) ==> x in after.ledger)
  {
    hide Agree, Members, Attach;
    var c, k, i := sys.lock.cluster, sys.lock.target, sys.lock.rank;
    RankIsKey(k, i);
    ActiveAttached(sys.maps, c, k, x.shard);
    assert x.shard == k && x != Key(At(i), k) ==> x in FirstKeys(k, i);
  }

  lemma MoveInEndsInv(sys: System, content: Content)
    requires Inv(sys) && sys.lock.MovingIn? && sys.lock.rank + 1 == COMPONENT_COUNT
    ensures Inv(MoveInStep(sys, Done, content))
  {
    var after := MoveInStep(sys, Done, content);
    assert Agree(after.maps) by {
      AttachKeepsAgreement(sys.maps, sys.lock.cluster, sys.lock.target);
    }
    assert after.lock.Free? && after.redeployer == sys.redeployer;
    assert MissingExact(after) && LedgerExact(after) by {
      hide MoveInStep, Inv, Agree;
      forall x: Key
        ensures x in after.missing <==> Active(after.maps, x.shard) && x !in after.store
        ensures x in after.ledger ==> x in after.store && Stale(after, x)
        ensures x in after.store && Stale(after, x) ==> x in after.ledger
      {
        MoveInEndsExact(sys, content, x);
      }
    }
    hide MoveInStep, Agree, MissingExact, LedgerExact;
  }

  lemma MoveInInv(sys: System, reply: Reply, content: Content)
    requires Inv(sys) && sys.lock.MovingIn?
    ensures Inv(MoveInStep(sys, reply, content))
  {
    if reply != Done {
      MoveInFailsInv(sys, reply, content);
    } else if sys.lock.rank + 1 < COMPONENT_COUNT {
      MoveInContinuesInv(sys, content);
    } else {
      MoveInEndsInv(sys, content);
    }
  }

  lemma EmptyInv(sys: System, reply: Reply)
    requires Inv(sys) && sys.lock.Emptying?
    ensures Inv(EmptyStep(sys, reply))
  {
    var s, i := sys.lock.shard, sys.lock.rank;
    var after := EmptyStep(sys, reply);
    RankIsKey(s, i);
    forall x: Key
      ensures x in after.missing <==> Active(after.maps, x.shard) && x !in after.store
      ensures x in after.ledger ==> x in after.store && Stale(after, x)
      ensures x in after.store && Stale(after, x) ==> x in after.ledger || InProgress(after.lock, x)
    {
      assert x in after.store <==> x in sys.store && !(reply != Refused && x == Key(At(i), s));
      assert x in KeysOf(s) && x !in FirstKeys(s, Effects(i, reply)) <==>
             x.shard == s && Rank(x.component) >= Effects(i, reply);
    }
  }

  lemma RedeployInv(sys: System, reply: Reply, content: Content)
    requires Inv(sys) && sys.redeployer.queue != []
    ensures Inv(RedeployStep(sys, reply, content))
  {}

  lemma NextInv(sys: System, a: Action)
    requires Inv(sys) && Enabled(sys, a)
    ensures Inv(Next(sys, a))
  {
    match a
    case BeginTrack(c, k) => BeginTrackInv(sys, c, k);
    case BeginStop(c) => BeginStopInv(sys, c);
    case LockedCall(reply, content) =>
      if sys.lock.MovingOut? {
        MoveOutInv(sys, reply);
      } else if sys.lock.MovingIn? {
        MoveInInv(sys, reply, content);
      } else {
        EmptyInv(sys, reply);
      }
    case Snapshot(order) =>
    case RedeployCall(reply, content) => RedeployInv(sys, reply, content);
  }

  lemma {:induction false} RunInv(states: seq<System>, actions: seq<Action>, n: nat)
    requires IsRun(states, actions) && n < |states|
    ensures Inv(states[n])
  {
    if n == 0 {
      var store :| states[0] == Start(store);
      hide Inv;
      StartInv(store);
    } else {
      RunInv(states, actions, n - 1);
      NextInv(states[n - 1], actions[n - 1]);
    }
  }

  // ---------- Who may act ----------

  lemma {:induction false} Listing(shards: set<Shard>) returns (order: seq<Shard>)
    ensures (forall s :: s in order <==> s in shards) && (forall i, j :: 0 <= i < j < |order| ==> order[i] != order[j])
    decreases |shards|
  {
    order := [];
    if shards != {} {
      var s :| s in shards;
      var rest := Listing(shards - {s});
      order := [s] + rest;
    }
  }

  /** Nobody waits for anything but the lock: whoever holds it can make its next call, the
      redeployer can make its own at any time whoever holds it, and a request or a snapshot can
      begin whenever the lock is free, the latter once the last pass is over. */
  lemma NobodyIsBlocked(sys: System)
    requires Inv(sys)
    ensures forall reply, content :: Enabled(sys, LockedCall(reply, content)) <==> !sys.lock.Free?
    ensures forall reply, content :: Enabled(sys, RedeployCall(reply, content)) <==> sys.redeployer.queue != []
    ensures forall c, k :: Enabled(sys, BeginTrack(c, k)) <==> sys.lock.Free?
    ensures forall c :: Enabled(sys, BeginStop(c)) <==> sys.lock.Free?
    ensures (exists order :: Enabled(sys, Snapshot(order))) <==> sys.lock.Free? && sys.redeployer.queue == []
  {
    var active := set s | s in sys.maps.shardMap && Active(sys.maps, s);
    var order := Listing(active);
    assert forall s :: s in order <==> Active(sys.maps, s);
    assert Enabled(sys, Snapshot(order)) <==> sys.lock.Free? && sys.redeployer.queue == [];
  }

  // ---------- The account ----------

  lemma DesiredKeys(m: Maps, k: Key)
    ensures k in Desired(m) <==> Active(m, k.shard)
  {
    assert k in KeysOf(k.shard);
  }

  /** In every reachable state with the write lock free, whatever failed and however the
      redeployer was interleaved, the deployments are those of the active shards, without the
      missing ones and with the ones in the ledger. */
  lemma Account(states: seq<System>, actions: seq<Action>, n: nat)
    requires IsRun(states, actions) && n < |states| && states[n].lock.Free?
    ensures var sys := states[n];
            && sys.store.Keys == (Desired(sys.maps) - sys.missing) + sys.ledger.Keys
            && sys.missing <= Desired(sys.maps)
            && sys.ledger.Keys !! Desired(sys.maps)
  {
    RunInv(states, actions, n);
    var sys := states[n];
    forall k
      ensures k in sys.store.Keys <==> k in (Desired(sys.maps) - sys.missing) + sys.ledger.Keys
      ensures k in sys.missing ==> k in Desired(sys.maps)
      ensures !(k in sys.ledger && k in Desired(sys.maps))
    {
      DesiredKeys(sys.maps, k);
    }
  }

  /** Whoever holds the lock, the missing deployments are exactly those that active shards lack. */
  lemma ActiveShardsServed(states: seq<System>, actions: seq<Action>, n: nat, k: Key)
    requires IsRun(states, actions) && n < |states|
    ensures k in states[n].missing <==> Active(states[n].maps, k.shard) && k !in states[n].store
  {
    RunInv(states, actions, n);
  }

  /** The redeployer only applies: it never changes the maps, and never adds a missing one. */
  lemma RedeployNeverWeakens(sys: System, reply: Reply, content: Content)
    requires Enabled(sys, RedeployCall(reply, content))
    ensures var after := Next(sys, RedeployCall(reply, content));
            after.maps == sys.maps && sys.store.Keys <= after.store.Keys && after.missing <= sys.missing
  {}

  // ---------- Who is to blame ----------

  /** The step is one of the kind that the cause names, and leaves the deployment in excess: a
      deploy fails after applying it, an undeploy fails before deleting it, or the redeployer
      applies it for a shard that no longer needs it. */
  ghost predicate LeavesExcess(sys: System, a: Action, k: Key, cause: Cause) {
    match cause
    case Inherited => false
    case PartialDeploy =>
      && a.LockedCall? && a.reply != Done && sys.lock.MovingIn?
      && k.shard == sys.lock.target && Rank(k.component) < Effects(sys.lock.rank, a.reply)
    case FailedUndeploy =>
      && a.LockedCall? && a.reply != Done && sys.lock.Emptying?
      && k.shard == sys.lock.shard && Rank(k.component) >= Effects(sys.lock.rank, a.reply)
    case StaleRedeploy =>
      && a.RedeployCall? && a.reply != Refused && Stale(sys, k) && sys.redeployer.queue != []
      && k.shard == sys.redeployer.queue[0] && Rank(k.component) == sys.redeployer.rank
  }

  /** In every state from the one after step j up to state n the deployment exists, its shard does
      not need it, and the ledger gives the same cause for it. */
  ghost predicate InExcessSince(states: seq<System>, k: Key, cause: Cause, j: int, n: nat) {
    forall i :: 0 <= i < |states| && j < i <= n ==>
      && k in states[i].store && Stale(states[i], k)
      && k in states[i].ledger && states[i].ledger[k] == cause
  }

  /** An entry of the ledger that a step adds or changes is of that step's kind. */
  lemma LedgerEntryNew(sys: System, a: Action, k: Key)
    requires Inv(sys) && Enabled(sys, a) && k in Next(sys, a).ledger
    requires k in sys.ledger ==> sys.ledger[k] != Next(sys, a).ledger[k]
    ensures LeavesExcess(sys, a, k, Next(sys, a).ledger[k])
  {
    hide Agree, LockSound, MissingExact, LedgerExact, Members, Detach, Attach, Forget;
    match a
    case BeginTrack(c, s) =>
    case BeginStop(c) =>
    case LockedCall(reply, content) => LockedEntryNew(sys, a, k);
    case Snapshot(order) =>
    case RedeployCall(reply, content) =>
  }

  lemma LockedEntryNew(sys: System, a: Action, k: Key)
    requires Inv(sys) && Enabled(sys, a) && a.LockedCall? && k in Next(sys, a).ledger
    requires k in sys.ledger ==> sys.ledger[k] != Next(sys, a).ledger[k]
    ensures LeavesExcess(sys, a, k, Next(sys, a).ledger[k])
  {
    hide Inv, Detach, Attach, Members;
    if sys.lock.MovingIn? {
      RankIsKey(sys.lock.target, sys.lock.rank);
    } else if sys.lock.Emptying? {
      RankIsKey(sys.lock.shard, sys.lock.rank);
    }
  }

  /** The ledger is right: an entry was made by a step of the kind it names, and the deployment
      has existed without being needed ever since; or it has since the start (j is -1 then). */
  lemma {:induction false} LedgerExplained(states: seq<System>, actions: seq<Action>, n: nat, k: Key)
    returns (j: int)
    requires IsRun(states, actions) && n < |states| && k in states[n].ledger
    ensures -1 <= j < n && InExcessSince(states, k, states[n].ledger[k], j, n)
    ensures j >= 0 ==> LeavesExcess(states[j], actions[j], k, states[n].ledger[k])
    ensures j < 0 ==> states[n].ledger[k] == Inherited
  {
    hide Next, Enabled, Agree, LockSound, MissingExact, Stale, LeavesExcess;
    RunInv(states, actions, n);
    if n == 0 {
      j := -1;
    } else {
      RunInv(states, actions, n - 1);
      if k in states[n - 1].ledger && states[n - 1].ledger[k] == states[n].ledger[k] {
        j := LedgerExplained(states, actions, n - 1, k);
      } else {
        LedgerEntryNew(states[n - 1], actions[n - 1], k);
        j := n - 1;
      }
    }
  }

  /** With the lock free, every deployment of a shard without clusters was left by a step of the
      kind that the ledger names for it, and since that step the deployment has existed and its
      shard has not needed it: no other kind of step leaves one. A deployment that has been in
      excess since the start has the cause Inherited. */
  lemma ExcessHasACause(states: seq<System>, actions: seq<Action>, n: nat, k: Key) returns (j: int, cause: Cause)
    requires IsRun(states, actions) && n < |states| && states[n].lock.Free?
    requires k in states[n].store && !Active(states[n].maps, k.shard)
    ensures -1 <= j < n && InExcessSince(states, k, cause, j, n)
    ensures if j >= 0 then LeavesExcess(states[j], actions[j], k, cause) else cause == Inherited
  {
    RunInv(states, actions, n);
    cause := states[n].ledger[k];
    j := LedgerExplained(states, actions, n, k);
  }

  /** A deletion made by trackCluster's undeploy of the shard. */
  ghost predicate DeletesForMove(sys: System, a: Action, k: Key) {
    && a.LockedCall? && a.reply != Refused && sys.lock.MovingOut?
    && Recorded(sys.maps, sys.lock.cluster) == k.shard && Rank(k.component) == sys.lock.rank
  }

  ghost predicate ActiveAndAbsentSince(states: seq<System>, k: Key, j: int, n: nat) {
    forall i :: 0 <= i < |states| && j < i <= n ==> k !in states[i].store && Active(states[i].maps, k.shard)
  }

  lemma MissingNew(sys: System, a: Action, k: Key)
    requires Inv(sys) && Enabled(sys, a) && k in Next(sys, a).missing && k !in sys.missing
    ensures DeletesForMove(sys, a, k)
  {
    if a.RedeployCall? {
      RedeployNeverWeakens(sys, a.reply, a.content);
    }
  }

  /** Every deployment an active shard lacks was deleted by a move out of that shard, and since
      then it was not applied and the shard kept its clusters: with the lock free again, that
      undeploy has failed. */
  lemma {:induction false} LackHasACause(states: seq<System>, actions: seq<Action>, n: nat, k: Key) returns (j: nat)
    requires IsRun(states, actions) && n < |states|
    requires Active(states[n].maps, k.shard) && k !in states[n].store
    ensures j < n && DeletesForMove(states[j], actions[j], k) && ActiveAndAbsentSince(states, k, j, n)
  {
    hide Inv, Next, Enabled, DeletesForMove;
    RunInv(states, actions, n);
    ActiveShardsServed(states, actions, n, k);
    if n == 0 {
      assert false;
    } else {
      RunInv(states, actions, n - 1);
      ActiveShardsServed(states, actions, n - 1, k);
      if k in states[n - 1].missing {
        j := LackHasACause(states, actions, n - 1, k);
      } else {
        MissingNew(states[n - 1], actions[n - 1], k);
        j := n - 1;
      }
    }
  }

  /** A call of trackCluster's undeploy of the shard that reports an error. */
  ghost predicate FailsMove(sys: System, a: Action, s: Shard) {
    && a.LockedCall? && a.reply != Done && sys.lock.MovingOut?
    && Recorded(sys.maps, sys.lock.cluster) == s
  }

  ghost predicate LeavingShard(sys: System, s: Shard) {
    sys.lock.MovingOut? && Recorded(sys.maps, sys.lock.cluster) == s
  }

  lemma MoveEndsInactive(sys: System, content: Content)
    requires Inv(sys) && sys.lock.MovingOut? && sys.lock.rank + 1 == COMPONENT_COUNT
    ensures !Active(Next(sys, LockedCall(Done, content)).maps, Recorded(sys.maps, sys.lock.cluster))
  {
    var c, k := sys.lock.cluster, sys.lock.target;
    var s, detached := Recorded(sys.maps, c), Detach(sys.maps, c);
    DetachLast(sys.maps, c, s);
    assert Members(Attach(detached, c, k), s) == Members(detached, s);
  }

  /** A move out of a shard ends by failing, or by leaving the shard without clusters. */
  lemma MoveGoesOn(sys: System, a: Action, s: Shard)
    requires Inv(sys) && Enabled(sys, a) && LeavingShard(sys, s) && Active(Next(sys, a).maps, s)
    ensures FailsMove(sys, a, s) || LeavingShard(Next(sys, a), s)
  {
    hide Agree, MissingExact, LedgerExact, Active, Enter;
    if sys.lock.rank + 1 == COMPONENT_COUNT {
      forall content {
        MoveEndsInactive(sys, content);
      }
    }
  }

  /** While the shard keeps its clusters, a move out of it is under way or has failed. */
  lemma {:induction false} MoveOpenOrFailed(states: seq<System>, actions: seq<Action>, j: nat, n: nat, k: Key)
    returns (i: nat)
    requires IsRun(states, actions) && j < n < |states|
    requires DeletesForMove(states[j], actions[j], k) && ActiveAndAbsentSince(states, k, j, n)
    ensures LeavingShard(states[n], k.shard) || (j <= i < n && FailsMove(states[i], actions[i], k.shard))
  {
    hide Inv, Next, Enabled, Active, FailsMove, LeavingShard, DeletesForMove;
    RunInv(states, actions, n - 1);
    assert Enabled(states[n - 1], actions[n - 1]) && states[n] == Next(states[n - 1], actions[n - 1]);
    assert Active(states[n].maps, k.shard);
    i := n - 1;
    if j < n - 1 {
      i := MoveOpenOrFailed(states, actions, j, n - 1, k);
    } else {
      DeletionIsLeaving(states[j], actions[j], k);
    }
    if LeavingShard(states[n - 1], k.shard) {
      MoveGoesOn(states[n - 1], actions[n - 1], k.shard);
      i := n - 1;
    }
  }

  lemma DeletionIsLeaving(sys: System, a: Action, k: Key)
    requires DeletesForMove(sys, a, k)
    ensures LeavingShard(sys, k.shard)
  {}

  /** With the lock free, what an active shard lacks was deleted by a move out of it that failed,
      and has not been applied since. */
  lemma LackMeansFailedMove(states: seq<System>, actions: seq<Action>, n: nat, k: Key) returns (j: nat, i: nat)
    requires IsRun(states, actions) && n < |states| && states[n].lock.Free?
    requires Active(states[n].maps, k.shard) && k !in states[n].store
    ensures j <= i < n && DeletesForMove(states[j], actions[j], k) && FailsMove(states[i], actions[i], k.shard)
    ensures ActiveAndAbsentSince(states, k, j, n)
  {
    j := LackHasACause(states, actions, n, k);
    i := MoveOpenOrFailed(states, actions, j, n, k);
  }

  /** The redeployer only applies to shards that were active when its snapshot was taken. */
  lemma {:induction false} QueueWasActive(states: seq<System>, actions: seq<Action>, n: nat, s: Shard) returns (j: nat)
    requires IsRun(states, actions) && n < |states| && s in states[n].redeployer.queue
    ensures j < n && actions[j].Snapshot? && s in actions[j].order && Active(states[j].maps, s)
  {
    if n == 0 {
      assert false;
    } else if s in states[n - 1].redeployer.queue {
      j := QueueWasActive(states, actions, n - 1, s);
    } else {
      j := n - 1;
    }
  }

  // ---------- Freshness ----------

  /** The step applies the deployment, with the content that the action carries. */
  ghost predicate Applies(sys: System, a: Action, k: Key) {
    match a
    case LockedCall(reply, _) =>
      reply != Refused && sys.lock.MovingIn? && k.shard == sys.lock.target && Rank(k.component) == sys.lock.rank
    case RedeployCall(reply, _) =>
      && reply != Refused && sys.redeployer.queue != []
      && k.shard == sys.redeployer.queue[0] && Rank(k.component) == sys.redeployer.rank
    case _ => false
  }

  /** A deployment that exists for an active shard, or that the deploy under way has applied. */
  ghost predicate Live(sys: System, k: Key) {
    k in sys.store &&
    (Active(sys.maps, k.shard) ||
     (sys.lock.MovingIn? && k.shard == sys.lock.target && Rank(k.component) < sys.lock.rank))
  }

  /** What a step leaves live it has just applied, or it was live with the same content. */
  ghost predicate LiveCarries(sys: System, a: Action, after: System, k: Key) {
    Live(after, k) ==>
      if Applies(sys, a, k) then after.store[k] == a.content
      else Live(sys, k) && after.store[k] == sys.store[k]
  }

  lemma EnterCarries(sys: System, c: Cluster, k: Shard, x: Key)
    requires Agree(sys.maps) && Live(Enter(sys, c, k), x)
    ensures x in sys.store && Enter(sys, c, k).store == sys.store && Active(sys.maps, x.shard)
  {
    var detached := Detach(sys.maps, c);
    DetachKeepsAgreement(sys.maps, c);
    hide Agree, Detach;
    if !(Members(detached, k) == {} && k != DEFAULT_SHARD) {
      assert Active(Attach(detached, c, k), x.shard) == Active(detached, x.shard);
    }
  }

  lemma LockedCarries(sys: System, a: Action, k: Key)
    requires Inv(sys) && Enabled(sys, a) && a.LockedCall?
    ensures LiveCarries(sys, a, Next(sys, a), k)
  {
    if sys.lock.MovingOut? {
      MoveOutCarries(sys, a, k);
    } else if sys.lock.MovingIn? {
      RankIsKey(sys.lock.target, sys.lock.rank);
      ActiveAttached(sys.maps, sys.lock.cluster, sys.lock.target, k.shard);
      hide Inv, Attach, Members;
    }
  }

  lemma MoveOutCarries(sys: System, a: Action, k: Key)
    requires Inv(sys) && Enabled(sys, a) && a.LockedCall? && sys.lock.MovingOut?
    ensures LiveCarries(sys, a, Next(sys, a), k)
  {
    hide LockSound, MissingExact, LedgerExact, Members, Active, Enter;
    if a.reply == Done && sys.lock.rank + 1 == COMPONENT_COUNT && Live(Next(sys, a), k) {
      EnterCarries(Emptied(sys), sys.lock.cluster, sys.lock.target, k);
    }
  }

  lemma NextCarries(sys: System, a: Action, k: Key)
    requires Inv(sys) && Enabled(sys, a)
    ensures LiveCarries(sys, a, Next(sys, a), k)
  {
    match a
    case BeginTrack(c, s) =>
      hide LockSound, MissingExact, LedgerExact, Members, Active, Enter;
      if Live(BeginTrackStep(sys, c, s), k) && BeginTrackStep(sys, c, s) == Enter(sys, c, s) {
        EnterCarries(sys, c, s, k);
      }
    case BeginStop(c) =>
      ActiveForgotten(sys.maps, c, k.shard);
      hide LockSound, MissingExact, LedgerExact, Members, Active, Forget, Agree;
    case LockedCall(_, _) => LockedCarries(sys, a, k);
    case Snapshot(_) =>
    case RedeployCall(_, _) =>
      RankIsKey(sys.redeployer.queue[0], sys.redeployer.rank);
      hide Inv, Members, Active;
  }

  /** The redeployer has yet to come to the deployment. */
  ghost predicate Pending(r: Redeployer, k: Key) {
    k.shard in r.queue && (k.shard == r.queue[0] ==> Rank(k.component) >= r.rank)
  }

  lemma PendingUntilApplied(sys: System, a: Action, k: Key)
    requires Enabled(sys, a) && Pending(sys.redeployer, k) && !Applies(sys, a, k)
    requires a.RedeployCall? ==> a.reply == Done
    ensures Pending(Next(sys, a).redeployer, k)
  {
    hide Stale, Effects;
    if a.RedeployCall? && k.shard != sys.redeployer.queue[0] {
      var i :| 0 <= i < |sys.redeployer.queue| && sys.redeployer.queue[i] == k.shard;
      assert sys.redeployer.queue[1..][i - 1] == k.shard;
    }
  }

  ghost predicate AppliesGood(states: seq<System>, actions: seq<Action>, j: nat, n: nat, good: (Key, Content) -> bool) {
    forall i, k :: 0 <= i < |states| && i < |actions| && j <= i < n && Applies(states[i], actions[i], k) ==>
      good(k, actions[i].content)
  }

  /** During the pass, what is live is good or still to be done. */
  lemma {:induction false} GoodOrPending(
      states: seq<System>, actions: seq<Action>, j: nat, n: nat, good: (Key, Content) -> bool, k: Key)
    requires IsRun(states, actions) && j < n < |states| && actions[j].Snapshot?
    requires forall i :: j < i < n && actions[i].RedeployCall? ==> actions[i].reply == Done
    requires AppliesGood(states, actions, j, n, good) && Live(states[n], k)
    ensures good(k, states[n].store[k]) || Pending(states[n].redeployer, k)
  {
    hide Inv, Next, Live, Applies, Pending;
    var sys, a := states[n - 1], actions[n - 1];
    RunInv(states, actions, n - 1);
    if n - 1 == j {
      SnapshotPends(sys, a, k);
    } else {
      NextCarries(sys, a, k);
      if !Applies(sys, a, k) {
        GoodOrPending(states, actions, j, n - 1, good, k);
        if Pending(sys.redeployer, k) {
          PendingUntilApplied(sys, a, k);
        }
      }
    }
  }

  lemma SnapshotPends(sys: System, a: Action, k: Key)
    requires Enabled(sys, a) && a.Snapshot? && Live(Next(sys, a), k)
    ensures Pending(Next(sys, a).redeployer, k)
  {}

  /** A pass that completes makes good what it finds, and good it stays: with every content
      applied from the snapshot on being good, so is every deployment of an active shard from the
      end of the pass on, however tracking is interleaved with the pass and whatever fails in it. */
  lemma {:induction false} GoodAfterPass(
      states: seq<System>, actions: seq<Action>, j: nat, m: nat, n: nat, good: (Key, Content) -> bool, k: Key)
    requires IsRun(states, actions) && j < m <= n < |states| && actions[j].Snapshot?
    requires forall i :: j < i < m && actions[i].RedeployCall? ==> actions[i].reply == Done
    requires states[m].redeployer.queue == []
    requires AppliesGood(states, actions, j, n, good) && Live(states[n], k)
    ensures good(k, states[n].store[k])
  {
    hide Inv, Next, Live, Applies;
    if n == m {
      GoodOrPending(states, actions, j, n, good, k);
    } else {
      RunInv(states, actions, n - 1);
      NextCarries(states[n - 1], actions[n - 1], k);
      if !Applies(states[n - 1], actions[n - 1], k) {
        GoodAfterPass(states, actions, j, m, n - 1, good, k);
      }
    }
  }

  /** The redeploy achieves its purpose. If what is applied from some snapshot on is rendered from
      one configuration and one set of patches, then from the moment that pass completes every
      deployment that exists for an active shard is rendered from them: also one that was deployed,
      undeployed or left partial by trackCluster or stopTrackingCluster in the meantime. */
  lemma CurrentAfterRedeploy(states: seq<System>, actions: seq<Action>, j: nat, m: nat, n: nat,
                             cfg: Config, patches: multiset<string>, k: Key)
    requires IsRun(states, actions) && j < m <= n < |states| && actions[j].Snapshot?
    requires forall i :: j < i < m && actions[i].RedeployCall? ==> actions[i].reply == Done
    requires states[m].redeployer.queue == []
    requires forall i, x :: j <= i < n && Applies(states[i], actions[i], x) ==>
               IsRendering(x.component, cfg, x.shard, patches, actions[i].content)
    requires k in states[n].store && Active(states[n].maps, k.shard)
    ensures IsRendering(k.component, cfg, k.shard, patches, states[n].store[k])
  {
    hide IsRendering, Applies;
    GoodAfterPass(states, actions, j, m, n,
                  (x: Key, content: Content) => IsRendering(x.component, cfg, x.shard, patches, content), k);
  }

  // ---------- Runs without a culprit ----------

  /** No locked call fails, and no redeploy touches a shard that no longer needs it. */
  ghost predicate Clean(states: seq<System>, actions: seq<Action>)
    requires IsRun(states, actions)
  {
    forall i :: 0 <= i < |actions| ==>
      && (actions[i].LockedCall? ==> actions[i].reply == Done)
      && (forall k, cause :: !LeavesExcess(states[i], actions[i], k, cause))
  }

  ghost predicate NothingWrong(sys: System) {
    && (forall k :: k !in sys.ledger)
    && (forall k :: k in sys.missing ==> sys.lock.MovingOut? && Recorded(sys.maps, sys.lock.cluster) == k.shard)
  }

  lemma {:induction false} CleanRunInv(states: seq<System>, actions: seq<Action>, n: nat)
    requires IsRun(states, actions) && Clean(states, actions) && states[0].store == map[] && n < |states|
    ensures NothingWrong(states[n])
  {
    if n > 0 {
      CleanRunInv(states, actions, n - 1);
      RunInv(states, actions, n - 1);
      var sys, a := states[n - 1], actions[n - 1];
      forall k
        ensures k !in Next(sys, a).ledger
      {
        if k in Next(sys, a).ledger {
          LedgerEntryNew(sys, a, k);
        }
      }
      CleanMissing(sys, a);
    }
  }

  lemma CleanMissing(sys: System, a: Action)
    requires Inv(sys) && NothingWrong(sys) && Enabled(sys, a) && (a.LockedCall? ==> a.reply == Done)
    ensures forall k :: k in Next(sys, a).missing ==>
              Next(sys, a).lock.MovingOut? && Recorded(Next(sys, a).maps, Next(sys, a).lock.cluster) == k.shard
  {}

  /** Without those three kinds of step and without a failed undeploy, the deployments are exactly
      those asked for whenever the lock is free. Redeploys may fail and may be interleaved. */
  lemma CleanRunServesExactly(states: seq<System>, actions: seq<Action>, n: nat)
    requires IsRun(states, actions) && Clean(states, actions) && states[0].store == map[]
    requires n < |states| && states[n].lock.Free?
    ensures states[n].store.Keys == Desired(states[n].maps)
  {
    CleanRunInv(states, actions, n);
    Account(states, actions, n);
  }

  // ---------- A critical section that is not interrupted ----------

  /** The lock holder makes its calls, with nothing in between, until it is done. */
  ghost function Drain(sys: System, answers: seq<Answer>): System
    requires Inv(sys)
    decreases |answers|
  {
    if answers == [] || sys.lock.Free? then sys
    else
      var a := LockedCall(answers[0].reply, answers[0].content);
      NextInv(sys, a);
      Drain(Next(sys, a), answers[1..])
  }

  /** No call that it makes reports an error. */
  ghost predicate DrainOk(sys: System, answers: seq<Answer>)
    requires Inv(sys)
    decreases |answers|
  {
    answers == [] || sys.lock.Free? ||
    (var a := LockedCall(answers[0].reply, answers[0].content);
     NextInv(sys, a);
     answers[0].reply == Done && DrainOk(Next(sys, a), answers[1..]))
  }

  /** The critical section that a request starts. */
  ghost function Section(sys: System, a: Action, answers: seq<Answer>): System
    requires Inv(sys) && Enabled(sys, a)
  {
    NextInv(sys, a);
    Drain(Next(sys, a), answers)
  }

  ghost predicate SectionOk(sys: System, a: Action, answers: seq<Answer>)
    requires Inv(sys) && Enabled(sys, a)
  {
    NextInv(sys, a);
    DrainOk(Next(sys, a), answers)
  }

  /** The first call of a section that ends. */
  lemma DrainCall(sys: System, answers: seq<Answer>) returns (next: System)
    requires Inv(sys) && !sys.lock.Free? && sys.lock.rank < COMPONENT_COUNT && Drain(sys, answers).lock.Free?
    ensures answers != [] && next == Next(sys, LockedCall(answers[0].reply, answers[0].content)) && Inv(next)
    ensures Drain(sys, answers) == Drain(next, answers[1..])
    ensures DrainOk(sys, answers) <==> answers[0].reply == Done && DrainOk(next, answers[1..])
    ensures next.lock.Free? ==> Drain(sys, answers) == next && DrainOk(next, answers[1..])
  {
    hide Inv, Next;
    var a := LockedCall(answers[0].reply, answers[0].content);
    NextInv(sys, a);
    next := Next(sys, a);
  }

  lemma EffectCall(answers: seq<Answer>, n: nat)
    requires answers != [] && n > 0
    ensures AllDone(Replies(answers), n) <==> answers[0].reply == Done && AllDone(Replies(answers[1..]), n - 1)
    ensures TookEffect(answers, n) ==
            (if answers[0].reply == Refused then [] else [answers[0].content]) +
            (if answers[0].reply == Done then TookEffect(answers[1..], n - 1) else [])
  {
    assert Replies(answers)[1..] == Replies(answers[1..]);
    assert Contents(answers)[1..] == Contents(answers[1..]);
  }

  lemma NothingLeft(answers: seq<Answer>)
    ensures AllDone(Replies(answers), 0) && TookEffect(answers, 0) == []
  {}

  /** One call of the deploy, against the contents applied so far. */
  lemma MoveInCall(sys: System, answer: Answer, base: Store, applied: seq<Content>)
    requires sys.lock.MovingIn? && sys.lock.rank < COMPONENT_COUNT && |applied| == sys.lock.rank
    requires sys.store == Applied(base, sys.lock.target, applied)
    ensures var next, c, k := Next(sys, LockedCall(answer.reply, answer.content)), sys.lock.cluster, sys.lock.target;
            var more := if answer.reply == Refused then [] else [answer.content];
            && next.store == Applied(base, k, applied + more)
            && (if answer.reply != Done then next.lock.Free? && next.maps == sys.maps
                else if |applied| + 1 == COMPONENT_COUNT then next.lock.Free? && next.maps == Attach(sys.maps, c, k)
                else next.lock == MovingIn(c, k, |applied| + 1) && next.maps == sys.maps)
  {
    hide Applied, Attach;
    ApplyNext(base, sys.lock.target, applied, answer.content);
    assert applied + [] == applied;
  }

  lemma {:induction false} DrainMovingIn(sys: System, answers: seq<Answer>, base: Store, applied: seq<Content>)
    requires Inv(sys) && sys.lock.MovingIn? && |applied| == sys.lock.rank < COMPONENT_COUNT
    requires sys.store == Applied(base, sys.lock.target, applied)
    requires Drain(sys, answers).lock.Free?
    ensures var end, left := Drain(sys, answers), COMPONENT_COUNT - sys.lock.rank;
            var c, k := sys.lock.cluster, sys.lock.target;
            && end.store == Applied(base, k, applied + TookEffect(answers, left))
            && end.maps == (if AllDone(Replies(answers), left) then Attach(sys.maps, c, k) else sys.maps)
            && (DrainOk(sys, answers) <==> AllDone(Replies(answers), left))
    decreases |answers|
  {
    hide Inv, Next, Applied, Attach, Drain, DrainOk, TookEffect, AllDone;
    var next := DrainCall(sys, answers);
    var left, content := COMPONENT_COUNT - sys.lock.rank, answers[0].content;
    EffectCall(answers, left);
    MoveInCall(sys, answers[0], base, applied);
    if next.lock.Free? {
      NothingLeft(answers[1..]);
      assert left - 1 == 0 || answers[0].reply != Done;
      var took := if answers[0].reply == Refused then [] else [content];
      assert took + [] == took;
    } else {
      var more := applied + [content];
      DrainMovingIn(next, answers[1..], base, more);
      var rest := TookEffect(answers[1..], left - 1);
      assert more + rest == applied + ([content] + rest);
    }
  }

  lemma EmptyCall(sys: System, answer: Answer, base: Store)
    requires sys.lock.Emptying? && sys.lock.rank < COMPONENT_COUNT
    requires sys.store == Deleted(base, sys.lock.shard, sys.lock.rank)
    ensures var next, s, i := Next(sys, LockedCall(answer.reply, answer.content)), sys.lock.shard, sys.lock.rank;
            && next.store == Deleted(base, s, Effects(i, answer.reply)) && next.maps == sys.maps
            && next.lock == if answer.reply == Done && i + 1 < COMPONENT_COUNT then Emptying(s, i + 1) else Free
  {
    hide Deleted;
    DeleteNext(base, sys.lock.shard, sys.lock.rank);
  }

  lemma {:induction false} DrainEmptying(sys: System, answers: seq<Answer>, base: Store)
    requires Inv(sys) && sys.lock.Emptying? && sys.lock.rank < COMPONENT_COUNT
    requires sys.store == Deleted(base, sys.lock.shard, sys.lock.rank)
    requires Drain(sys, answers).lock.Free?
    ensures var end, i := Drain(sys, answers), sys.lock.rank;
            && end.store == Deleted(base, sys.lock.shard, i + |TookEffect(answers, COMPONENT_COUNT - i)|)
            && end.maps == sys.maps
            && (DrainOk(sys, answers) <==> AllDone(Replies(answers), COMPONENT_COUNT - i))
    decreases |answers|
  {
    hide Inv, Next, Deleted, Drain, DrainOk, TookEffect, AllDone;
    var next := DrainCall(sys, answers);
    EffectCall(answers, COMPONENT_COUNT - sys.lock.rank);
    EmptyCall(sys, answers[0], base);
    if next.lock.Free? {
      NothingLeft(answers[1..]);
    } else {
      DrainEmptying(next, answers[1..], base);
    }
  }

  /** After the last deletion the section goes on as a section that had nothing to undeploy. */
  lemma DrainEntered(sys: System, answers: seq<Answer>, c: Cluster, k: Shard)
    requires Inv(Enter(sys, c, k)) && Drain(Enter(sys, c, k), answers).lock.Free?
    ensures var end, ok := Drain(Enter(sys, c, k), answers), DrainOk(Enter(sys, c, k), answers);
            var detached, d := Detach(sys.maps, c), DeployOf(answers);
            if Members(detached, k) != {} then end.store == sys.store && end.maps == Attach(detached, c, k) && ok
            else
              && end.store == DeployTo(sys.store, k, d)
              && end.maps == (if DeployOk(k, d) then Attach(detached, c, k) else detached)
              && (ok <==> DeployOk(k, d))
  {
    hide Agree, MissingExact, LedgerExact, Attach, Detach;
    var entered := Enter(sys, c, k);
    if entered.lock.MovingIn? {
      assert Applied(sys.store, k, []) == sys.store;
      DrainMovingIn(entered, answers, sys.store, []);
      assert [] + TookEffect(answers, COMPONENT_COUNT) == TookEffect(answers, COMPONENT_COUNT);
    }
  }

  /** trackCluster once the old shard is dealt with. */
  function Arrived(m: Maps, store: Store, c: Cluster, k: Shard, d: DeployRun): (State, bool) {
    if Members(m, k) != {} then (State(Attach(m, c, k), store), true)
    else (State(if DeployOk(k, d) then Attach(m, c, k) else m, DeployTo(store, k, d)), DeployOk(k, d))
  }

  lemma TrackAfterUndeploy(st: State, c: Cluster, k: Shard, u: UndeployRun, d: DeployRun)
    requires LastOfOld(st.maps, c) && st.maps.clusterMap[c] != k && st.maps.clusterMap[c] != DEFAULT_SHARD
    ensures var o, s := Track(st, c, k, u, d), st.maps.clusterMap[c];
            (o.state, o.ok) ==
              if u.ok then Arrived(Detach(st.maps, c), Deleted(st.store, s, COMPONENT_COUNT), c, k, d)
              else (State(st.maps, Deleted(st.store, s, u.deleted)), false)
  {}

  lemma TrackWithoutUndeploy(st: State, c: Cluster, k: Shard, u: UndeployRun, d: DeployRun)
    requires !(c in st.maps.clusterMap && st.maps.clusterMap[c] == k)
    requires !LastOfOld(st.maps, c) || st.maps.clusterMap[c] == DEFAULT_SHARD
    ensures var o := Track(st, c, k, u, d);
            (o.state, o.ok) == Arrived(Detach(st.maps, c), st.store, c, k, d)
  {}

  lemma TrackInPlace(st: State, c: Cluster, k: Shard, u: UndeployRun, d: DeployRun)
    requires c in st.maps.clusterMap && st.maps.clusterMap[c] == k
    ensures Track(st, c, k, u, d).state == st && Track(st, c, k, u, d).ok
  {}

  lemma DrainLastDeletion(sys: System, answers: seq<Answer>, base: Store)
    requires Inv(sys) && sys.lock.MovingOut? && sys.lock.rank + 1 == COMPONENT_COUNT
    requires sys.store == Deleted(base, Recorded(sys.maps, sys.lock.cluster), sys.lock.rank)
    requires Inv(MoveOutStep(sys, Done)) && Drain(MoveOutStep(sys, Done), answers).lock.Free?
    ensures var end, ok := Drain(MoveOutStep(sys, Done), answers), DrainOk(MoveOutStep(sys, Done), answers);
            var c, k, s := sys.lock.cluster, sys.lock.target, Recorded(sys.maps, sys.lock.cluster);
            (State(end.maps, end.store), ok) ==
              Arrived(Detach(sys.maps, c), Deleted(base, s, COMPONENT_COUNT), c, k, DeployOf(answers))
  {
    var c, k := sys.lock.cluster, sys.lock.target;
    DeleteNext(base, Recorded(sys.maps, c), sys.lock.rank);
    DrainEntered(Emptied(sys), answers, c, k);
    hide Agree, MissingExact, LedgerExact, Attach, Detach, Deleted, DeployTo, Drain, DrainOk;
  }

  lemma MoveOutIsNext(sys: System, answer: Answer)
    requires sys.lock.MovingOut? && sys.lock.rank < COMPONENT_COUNT
    ensures Next(sys, LockedCall(answer.reply, answer.content)) == MoveOutStep(sys, answer.reply)
  {}

  lemma MoveOutCall(sys: System, answer: Answer, base: Store)
    requires sys.lock.MovingOut? && sys.lock.rank < COMPONENT_COUNT
    requires sys.store == Deleted(base, Recorded(sys.maps, sys.lock.cluster), sys.lock.rank)
    requires answer.reply != Done || sys.lock.rank + 1 < COMPONENT_COUNT
    ensures var next, i := Next(sys, LockedCall(answer.reply, answer.content)), sys.lock.rank;
            && next.maps == sys.maps
            && next.store == Deleted(base, Recorded(sys.maps, sys.lock.cluster), Effects(i, answer.reply))
            && next.lock == if answer.reply == Done then MovingOut(sys.lock.cluster, sys.lock.target, i + 1) else Free
  {
    hide Deleted;
    DeleteNext(base, Recorded(sys.maps, sys.lock.cluster), sys.lock.rank);
  }

  /** The calls of a move out of a shard: the deletions that are left, and after them, if they all
      succeed, the applies. */
  lemma {:induction false} DrainMovingOut(sys: System, answers: seq<Answer>, base: Store)
    requires Inv(sys) && sys.lock.MovingOut? && sys.lock.rank < COMPONENT_COUNT
    requires sys.store == Deleted(base, Recorded(sys.maps, sys.lock.cluster), sys.lock.rank)
    requires Drain(sys, answers).lock.Free?
    ensures var end, left := Drain(sys, answers), COMPONENT_COUNT - sys.lock.rank;
            var c, k, s := sys.lock.cluster, sys.lock.target, Recorded(sys.maps, sys.lock.cluster);
            (State(end.maps, end.store), DrainOk(sys, answers)) ==
              if AllDone(Replies(answers), left) then
                Arrived(Detach(sys.maps, c), Deleted(base, s, COMPONENT_COUNT), c, k, DeployOf(answers[left..]))
              else (State(sys.maps, Deleted(base, s, sys.lock.rank + |TookEffect(answers, left)|)), false)
    decreases |answers|
  {
    hide Inv, Next, MoveOutStep, Detach, Arrived, Deleted, Drain, DrainOk, TookEffect, AllDone, Recorded, DeployOf;
    var next := DrainCall(sys, answers);
    MoveOutIsNext(sys, answers[0]);
    var i := sys.lock.rank;
    EffectCall(answers, COMPONENT_COUNT - i);
    NothingLeft(answers[1..]);
    if answers[0].reply == Done && i + 1 == COMPONENT_COUNT {
      DrainLastDeletion(sys, answers[1..], base);
    } else {
      MoveOutCall(sys, answers[0], base);
      if !next.lock.Free? {
        DrainMovingOut(next, answers[1..], base);
        assert AllDone(Replies(answers[1..]), COMPONENT_COUNT - (i + 1)) ==>
            answers[1..][COMPONENT_COUNT - (i + 1)..] == answers[COMPONENT_COUNT - i..];
      }
    }
  }

  /** The answers that are left for the deploy: the first five go to the undeploy when the cluster
      is the last one of the shard it is recorded in. */
  function ForDeploy(m: Maps, c: Cluster, answers: seq<Answer>): seq<Answer> {
    if LastOfOld(m, c) && m.clusterMap[c] != DEFAULT_SHARD && COMPONENT_COUNT <= |answers|
    then answers[COMPONENT_COUNT..]
    else answers
  }

  /** A trackCluster that runs without interruption is one step of the sequential tracker, with
      the same verdict, for whichever calls failed. */
  lemma UninterruptedTrack(sys: System, c: Cluster, k: Shard, answers: seq<Answer>)
    requires Inv(sys) && sys.lock.Free? && Section(sys, BeginTrack(c, k), answers).lock.Free?
    ensures var end, ok := Section(sys, BeginTrack(c, k), answers), SectionOk(sys, BeginTrack(c, k), answers);
            var u, d := UndeployOf(Replies(answers)), DeployOf(ForDeploy(sys.maps, c, answers));
            var o := Track(State(sys.maps, sys.store), c, k, u, d);
            State(end.maps, end.store) == o.state && (ok <==> o.ok)
  {
    hide Track, DeployTo, Attach, Detach, Agree, MissingExact, LedgerExact;
    NextInv(sys, BeginTrack(c, k));
    var begun, st := BeginTrackStep(sys, c, k), State(sys.maps, sys.store);
    var u, d := UndeployOf(Replies(answers)), DeployOf(ForDeploy(sys.maps, c, answers));
    if begun.lock.MovingOut? {
      assert Deleted(sys.store, Recorded(sys.maps, c), 0) == sys.store;
      DrainMovingOut(begun, answers, sys.store);
      TrackAfterUndeploy(st, c, k, u, d);
    } else if !(c in sys.maps.clusterMap && sys.maps.clusterMap[c] == k) {
      DrainEntered(sys, answers, c, k);
      TrackWithoutUndeploy(st, c, k, u, d);
    } else {
      TrackInPlace(st, c, k, u, d);
    }
  }

  lemma UninterruptedStop(sys: System, c: Cluster, answers: seq<Answer>)
    requires Inv(sys) && sys.lock.Free? && Section(sys, BeginStop(c), answers).lock.Free?
    ensures var end, ok := Section(sys, BeginStop(c), answers), SectionOk(sys, BeginStop(c), answers);
            var o := Stop(State(sys.maps, sys.store), c, UndeployOf(Replies(answers)));
            State(end.maps, end.store) == o.state && (ok <==> o.ok)
  {
    hide Agree, MissingExact, LedgerExact, Forget;
    NextInv(sys, BeginStop(c));
    var begun := BeginStopStep(sys, c);
    if begun.lock.Emptying? {
      assert Deleted(sys.store, begun.lock.shard, 0) == sys.store;
      DrainEmptying(begun, answers, sys.store);
    }
  }

  // ---------- A redeploy that is not interrupted ----------

  /** The redeployer makes its calls, with nothing in between, until its queue is empty. */
  ghost function DrainQueue(sys: System, answers: seq<Answer>): System
    requires Inv(sys)
    decreases |answers|
  {
    if answers == [] || sys.redeployer.queue == [] then sys
    else
      var a := RedeployCall(answers[0].reply, answers[0].content);
      NextInv(sys, a);
      DrainQueue(Next(sys, a), answers[1..])
  }

  /** No call that it makes reports an error. */
  ghost predicate DrainQueueOk(sys: System, answers: seq<Answer>)
    requires Inv(sys)
    decreases |answers|
  {
    answers == [] || sys.redeployer.queue == [] ||
    (var a := RedeployCall(answers[0].reply, answers[0].content);
     NextInv(sys, a);
     answers[0].reply == Done && DrainQueueOk(Next(sys, a), answers[1..]))
  }

  /** redeployAllShards from its snapshot on. */
  ghost function PassSection(sys: System, order: seq<Shard>, answers: seq<Answer>): System
    requires Inv(sys) && Enabled(sys, Snapshot(order))
  {
    NextInv(sys, Snapshot(order));
    DrainQueue(Next(sys, Snapshot(order)), answers)
  }

  ghost predicate PassOk(sys: System, order: seq<Shard>, answers: seq<Answer>)
    requires Inv(sys) && Enabled(sys, Snapshot(order))
  {
    NextInv(sys, Snapshot(order));
    DrainQueueOk(Next(sys, Snapshot(order)), answers)
  }

  /** The runs of deployControllers that the answers make up, for up to n shards. */
  function PassRuns(n: nat, answers: seq<Answer>): (runs: seq<DeployRun>)
    ensures |runs| <= n
  {
    if n == 0 then []
    else
      var d := DeployOf(answers);
      if d.ok then [d] + PassRuns(n - 1, answers[COMPONENT_COUNT..]) else [d]
  }

  lemma {:induction false} PassRunsStop(n: nat, answers: seq<Answer>)
    ensures StopsAtFailure(PassRuns(n, answers))
  {
    hide DeployOf;
    if n > 0 && DeployOf(answers).ok {
      PassRunsStop(n - 1, answers[COMPONENT_COUNT..]);
    }
  }

  /** The first call of a pass that ends. */
  lemma QueueCall(sys: System, answers: seq<Answer>) returns (next: System)
    requires Inv(sys) && sys.redeployer.queue != [] && sys.redeployer.rank < COMPONENT_COUNT
    requires DrainQueue(sys, answers).redeployer.queue == []
    ensures answers != [] && next == RedeployStep(sys, answers[0].reply, answers[0].content) && Inv(next)
    ensures DrainQueue(sys, answers) == DrainQueue(next, answers[1..])
    ensures DrainQueueOk(sys, answers) <==> answers[0].reply == Done && DrainQueueOk(next, answers[1..])
  {
    hide Inv, RedeployStep;
    var a := RedeployCall(answers[0].reply, answers[0].content);
    NextInv(sys, a);
    next := Next(sys, a);
  }

  /** One apply of the pass, against the contents applied so far for its shard. */
  lemma PassCall(sys: System, answer: Answer, base: Store, applied: seq<Content>)
    requires sys.redeployer.queue != [] && |applied| == sys.redeployer.rank < COMPONENT_COUNT
    requires sys.store == Applied(base, sys.redeployer.queue[0], applied)
    ensures var next, queue := RedeployStep(sys, answer.reply, answer.content), sys.redeployer.queue;
            var more := if answer.reply == Refused then [] else [answer.content];
            && next.maps == sys.maps && next.lock == sys.lock && next.store == Applied(base, queue[0], applied + more)
            && next.redeployer ==
               (if answer.reply != Done then Redeployer([], 0)
                else if |applied| + 1 == COMPONENT_COUNT then Redeployer(queue[1..], 0)
                else Redeployer(queue, |applied| + 1))
  {
    hide Applied, Stale;
    ApplyNext(base, sys.redeployer.queue[0], applied, answer.content);
    assert applied + [] == applied;
  }

  /** The calls that are left for the first shard of the queue: if one fails the pass is over,
      otherwise it goes on with the next shard and the answers that are left. */
  lemma {:induction false} DrainShard(sys: System, answers: seq<Answer>, base: Store, applied: seq<Content>)
    returns (next: System)
    requires Inv(sys) && sys.redeployer.queue != [] && |applied| == sys.redeployer.rank < COMPONENT_COUNT
    requires sys.store == Applied(base, sys.redeployer.queue[0], applied)
    requires DrainQueue(sys, answers).redeployer.queue == []
    ensures var left := COMPONENT_COUNT - |applied|;
            && Inv(next) && next.maps == sys.maps && next.lock == sys.lock
            && next.store == Applied(base, sys.redeployer.queue[0], applied + TookEffect(answers, left))
            && if AllDone(Replies(answers), left) then
                 && next.redeployer == Redeployer(sys.redeployer.queue[1..], 0)
                 && DrainQueue(sys, answers) == DrainQueue(next, answers[left..])
                 && (DrainQueueOk(sys, answers) <==> DrainQueueOk(next, answers[left..]))
               else next == DrainQueue(sys, answers) && !DrainQueueOk(sys, answers)
    decreases |answers|
  {
    hide Inv, Applied, RedeployStep, TookEffect, AllDone, DrainQueue, DrainQueueOk;
    var called := QueueCall(sys, answers);
    var left, content := COMPONENT_COUNT - |applied|, answers[0].content;
    EffectCall(answers, left);
    PassCall(sys, answers[0], base, applied);
    NothingLeft(answers[1..]);
    var took := if answers[0].reply == Refused then [] else [content];
    assert took + [] == took;
    if answers[0].reply != Done {
      EmptyQueue(called, answers[1..]);
      next := called;
    } else if left == 1 {
      next := called;
    } else {
      var more := applied + [content];
      next := DrainShard(called, answers[1..], base, more);
      var rest := TookEffect(answers[1..], left - 1);
      assert more + rest == applied + ([content] + rest);
      assert AllDone(Replies(answers[1..]), left - 1) ==> answers[1..][left - 1..] == answers[left..];
    }
  }

  lemma EmptyQueue(sys: System, answers: seq<Answer>)
    requires Inv(sys) && sys.redeployer.queue == []
    ensures DrainQueue(sys, answers) == sys && DrainQueueOk(sys, answers)
  {}

  lemma {:induction false} DrainedQueue(sys: System, answers: seq<Answer>)
    requires Inv(sys) && sys.redeployer.rank == 0 && DEFAULT_SHARD !in sys.redeployer.queue
    requires DrainQueue(sys, answers).redeployer.queue == []
    ensures var end, queue := DrainQueue(sys, answers), sys.redeployer.queue;
            var runs := PassRuns(|queue|, answers);
            && end.maps == sys.maps && end.lock == sys.lock && end.store == RedeployList(sys.store, queue, runs)
            && (DrainQueueOk(sys, answers) <==> |runs| == |queue| && AllOk(runs))
    decreases |sys.redeployer.queue|
  {
    hide Inv, Applied, TookEffect, AllDone, DrainQueue, DrainQueueOk, AllOk, RedeployList, DeployOf, PassRuns;
    var queue := sys.redeployer.queue;
    PassRunsFirst(|queue|, answers);
    if queue == [] {
      EmptyQueue(sys, answers);
      NoRuns(sys.store);
    } else {
      assert queue[0] in queue;
      var next := DrainFirst(sys, answers);
      var d := DeployOf(answers);
      if d.ok {
        var rest := PassRuns(|queue| - 1, answers[COMPONENT_COUNT..]);
        DrainedQueue(next, answers[COMPONENT_COUNT..]);
        RedeployFirst(sys.store, queue, d, rest);
        AllOkFirst(d, rest);
      } else {
        RedeployFirst(sys.store, queue, d, []);
        NoRunsLeft(DeployTo(sys.store, queue[0], d), queue[1..]);
        AllOkFirst(d, []);
        assert [d] + [] == [d];
      }
    }
  }

  lemma PassRunsFirst(n: nat, answers: seq<Answer>)
    ensures PassRuns(n, answers) ==
            if n == 0 then []
            else if DeployOf(answers).ok then [DeployOf(answers)] + PassRuns(n - 1, answers[COMPONENT_COUNT..])
            else [DeployOf(answers)]
  {}

  lemma NoRuns(store: Store)
    ensures RedeployList(store, [], []) == store && AllOk([])
  {}

  lemma NoRunsLeft(store: Store, shards: seq<Shard>)
    ensures RedeployList(store, shards, []) == store
  {}

  /** The whole first shard of the queue. */
  lemma DrainFirst(sys: System, answers: seq<Answer>) returns (next: System)
    requires Inv(sys) && sys.redeployer.queue != [] && sys.redeployer.rank == 0
    requires sys.redeployer.queue[0] != DEFAULT_SHARD && DrainQueue(sys, answers).redeployer.queue == []
    ensures var d := DeployOf(answers);
            && Inv(next) && next.maps == sys.maps && next.lock == sys.lock
            && next.store == DeployTo(sys.store, sys.redeployer.queue[0], d)
            && if d.ok then
                 && next.redeployer == Redeployer(sys.redeployer.queue[1..], 0)
                 && DrainQueue(sys, answers) == DrainQueue(next, answers[COMPONENT_COUNT..])
                 && (DrainQueueOk(sys, answers) <==> DrainQueueOk(next, answers[COMPONENT_COUNT..]))
               else next == DrainQueue(sys, answers) && !DrainQueueOk(sys, answers)
  {
    hide Inv, Applied, TookEffect, AllDone, DrainQueue, DrainQueueOk;
    NothingApplied(sys.store, sys.redeployer.queue[0]);
    next := DrainShard(sys, answers, sys.store, []);
    assert [] + TookEffect(answers, COMPONENT_COUNT) == TookEffect(answers, COMPONENT_COUNT);
  }

  lemma NothingApplied(store: Store, s: Shard)
    ensures Applied(store, s, []) == store
  {}

  /** A redeploy that runs without interruption is the sequential pass over its snapshot, for the
      runs that its answers make up: the shards in order, up to the first that fails. */
  lemma UninterruptedRedeploy(sys: System, order: seq<Shard>, answers: seq<Answer>)
    requires Inv(sys) && Enabled(sys, Snapshot(order))
    requires PassSection(sys, order, answers).redeployer.queue == []
    ensures var end, runs := PassSection(sys, order, answers), PassRuns(|order|, answers);
            && end.lock == sys.lock && StopsAtFailure(runs)
            && State(end.maps, end.store) == Step(State(sys.maps, sys.store), Redeployed(Pass(order, runs)))
            && (PassOk(sys, order, answers) <==> |runs| == |order| && AllOk(runs))
    ensures forall i :: 0 <= i < |answers| && answers[i].reply != Done ==>
              PassSection(sys, order, answers) == PassSection(sys, order, answers[..i + 1])
  {
    NextInv(sys, Snapshot(order));
    var begun := Next(sys, Snapshot(order));
    DrainedQueue(begun, answers);
    PassRunsStop(|order|, answers);
    forall i | 0 <= i < |answers| && answers[i].reply != Done
      ensures DrainQueue(begun, answers) == DrainQueue(begun, answers[..i + 1])
    {
      NothingAfterError(begun, answers, i);
    }
  }

  /** After an error no answer is used any more. */
  lemma {:induction false} NothingAfterError(sys: System, answers: seq<Answer>, i: nat)
    requires Inv(sys) && i < |answers| && answers[i].reply != Done
    ensures DrainQueue(sys, answers) == DrainQueue(sys, answers[..i + 1])
    decreases |answers|
  {
    if sys.redeployer.queue != [] {
      var a := RedeployCall(answers[0].reply, answers[0].content);
      NextInv(sys, a);
      var next := Next(sys, a);
      hide Inv;
      assert answers[..i + 1][1..] == answers[1..][..i];
      if i > 0 {
        NothingAfterError(next, answers[1..], i - 1);
      } else {
        assert next.redeployer.queue == [];
      }
    }
  }

  // ---------- A redeploy among other steps ----------

  /** The answers that the redeployer got. */
  function PassAnswers(actions: seq<Action>): seq<Answer> {
    if actions == [] then []
    else
      var init, a := PassAnswers(actions[..|actions| - 1]), actions[|actions| - 1];
      if a.RedeployCall? then init + [Answer(a.reply, a.content)] else init
  }

  lemma {:induction false} DrainOneMore(sys: System, answers: seq<Answer>, answer: Answer)
    requires Inv(sys) && DrainQueue(sys, answers).redeployer.queue != []
    ensures var before := DrainQueue(sys, answers);
            && Inv(before) && Enabled(before, RedeployCall(answer.reply, answer.content))
            && DrainQueue(sys, answers + [answer]) == Next(before, RedeployCall(answer.reply, answer.content))
    decreases |answers|
  {
    if answers == [] {
      assert ([answer])[1..] == [];
    } else {
      var a := RedeployCall(answers[0].reply, answers[0].content);
      NextInv(sys, a);
      var next := Next(sys, a);
      hide Inv, RedeployStep;
      DrainOneMore(next, answers[1..], answer);
      assert (answers + [answer])[1..] == answers[1..] + [answer];
    }
  }

  lemma SameProgress(x: System, y: System, a: Action)
    requires x.redeployer == y.redeployer && a.RedeployCall? && Enabled(x, a) && Enabled(y, a)
    ensures Next(x, a).redeployer == Next(y, a).redeployer
  {}

  lemma OthersDoNotDisturb(sys: System, a: Action)
    requires Enabled(sys, a) && !a.RedeployCall? && !a.Snapshot?
    ensures Next(sys, a).redeployer == sys.redeployer
  {}

  /** However tracks and stops are interleaved with a pass, it stands where it would stand without
      them: the same shard and component comes next, and after an error none. */
  lemma {:induction false} PassUndisturbed(states: seq<System>, actions: seq<Action>, j: nat, n: nat)
    requires IsRun(states, actions) && j < n < |states| && actions[j].Snapshot?
    requires forall i :: j < i < n ==> !actions[i].Snapshot?
    ensures Inv(states[j]) && Enabled(states[j], actions[j])
    ensures states[n].redeployer ==
            PassSection(states[j], actions[j].order, PassAnswers(actions[j + 1..n])).redeployer
  {
    hide Inv, Next;
    RunInv(states, actions, j);
    NextInv(states[j], actions[j]);
    var begun, since := Next(states[j], actions[j]), actions[j + 1..n];
    assert actions[j] == Snapshot(actions[j].order);
    if n == j + 1 {
      assert since == [];
    } else {
      PassUndisturbed(states, actions, j, n - 1);
      var sys, a := states[n - 1], actions[n - 1];
      assert since[..|since| - 1] == actions[j + 1..n - 1] && since[|since| - 1] == a;
      if a.RedeployCall? {
        var before := DrainQueue(begun, PassAnswers(actions[j + 1..n - 1]));
        DrainOneMore(begun, PassAnswers(actions[j + 1..n - 1]), Answer(a.reply, a.content));
        SameProgress(sys, before, a);
      } else {
        OthersDoNotDisturb(sys, a);
      }
    }
  }

  // ---------- Each cause occurs ----------

  ghost predicate Reachable(sys: System) {
    exists states, actions :: IsRun(states, actions) && states[|actions|] == sys
  }

  lemma ReachableStart(store: Store)
    ensures Reachable(Start(store))
  {
    assert IsRun([Start(store)], []);
  }

  lemma ReachableNext(sys: System, a: Action)
    requires Reachable(sys) && Enabled(sys, a)
    ensures Reachable(Next(sys, a))
  {
    var states, actions :| IsRun(states, actions) && states[|actions|] == sys;
    var longer := states + [Next(sys, a)];
    assert longer[0] == states[0];
    assert IsRun(longer, actions + [a]);
  }

  /** Five calls that succeed bring a shard up. */
  lemma MoveInCompletes(sys: System, content: Content) returns (end: System)
    requires Reachable(sys) && sys.lock.MovingIn? && sys.lock.rank == 0
    ensures Reachable(end) && end.lock.Free? && end.redeployer == sys.redeployer
    ensures end.maps == Attach(sys.maps, sys.lock.cluster, sys.lock.target)
    ensures forall k :: k in KeysOf(sys.lock.target) ==> k in end.store
  {
    var a := LockedCall(Done, content);
    end := sys;
    for i := 0 to COMPONENT_COUNT - 1
      invariant forall k :: k in FirstKeys(sys.lock.target, i) ==> k in end.store
      invariant Reachable(end) && end.lock == MovingIn(sys.lock.cluster, sys.lock.target, i)
      invariant end.maps == sys.maps && end.redeployer == sys.redeployer
    {
      ReachableNext(end, a);
      end := Next(end, a);
    }
    ReachableNext(end, a);
    end := Next(end, a);
  }

  /** Five deletions that succeed bring it down. */
  lemma EmptyingCompletes(sys: System, content: Content) returns (end: System)
    requires Reachable(sys) && sys.lock.Emptying? && sys.lock.rank == 0
    ensures Reachable(end) && end.lock.Free? && end.redeployer == sys.redeployer && end.maps == sys.maps
  {
    var a := LockedCall(Done, content);
    end := sys;
    for i := 0 to COMPONENT_COUNT - 1
      invariant Reachable(end) && end.lock == Emptying(sys.lock.shard, i)
      invariant end.maps == sys.maps && end.redeployer == sys.redeployer
    {
      ReachableNext(end, a);
      end := Next(end, a);
    }
    ReachableNext(end, a);
    end := Next(end, a);
  }

  ghost predicate InExcess(sys: System, k: Key, cause: Cause) {
    && Reachable(sys) && sys.lock.Free? && k in sys.store && !Active(sys.maps, k.shard)
    && k in sys.ledger && sys.ledger[k] == cause
  }

  lemma PartialDeployOccurs(c: Cluster, s: Shard, content: Content) returns (sys: System)
    requires s != DEFAULT_SHARD
    ensures InExcess(sys, Key(AddonController, s), PartialDeploy)
  {
    ReachableStart(map[]);
    sys := Start(map[]);
    ReachableNext(sys, BeginTrack(c, s));
    sys := Next(sys, BeginTrack(c, s));
    ReachableNext(sys, LockedCall(Lost, content));
    sys := Next(sys, LockedCall(Lost, content));
    assert Key(AddonController, s) in FirstKeys(s, 1);
  }

  /** A shard with one cluster, reached without a failure. */
  lemma OneCluster(c: Cluster, s: Shard, content: Content) returns (sys: System)
    requires s != DEFAULT_SHARD
    ensures Reachable(sys) && sys.lock.Free? && sys.redeployer.queue == []
    ensures sys.maps == Maps(map[c := s], map[s := {c}])
    ensures forall k :: k in KeysOf(s) ==> k in sys.store
  {
    ReachableStart(map[]);
    sys := Start(map[]);
    ReachableNext(sys, BeginTrack(c, s));
    sys := Next(sys, BeginTrack(c, s));
    sys := MoveInCompletes(sys, content);
    assert Members(sys.maps, s) == {c};
  }

  lemma FailedUndeployOccurs(c: Cluster, s: Shard, content: Content) returns (sys: System)
    requires s != DEFAULT_SHARD
    ensures InExcess(sys, Key(AddonController, s), FailedUndeploy)
  {
    sys := OneCluster(c, s, content);
    assert Key(AddonController, s) in sys.store;
    ReachableNext(sys, BeginStop(c));
    sys := Next(sys, BeginStop(c));
    ReachableNext(sys, LockedCall(Refused, content));
    sys := Next(sys, LockedCall(Refused, content));
  }

  lemma StaleRedeployOccurs(c: Cluster, s: Shard, content: Content) returns (sys: System)
    requires s != DEFAULT_SHARD
    ensures InExcess(sys, Key(AddonController, s), StaleRedeploy)
  {
    sys := OneCluster(c, s, content);
    ReachableNext(sys, Snapshot([s]));
    sys := Next(sys, Snapshot([s]));
    ReachableNext(sys, BeginStop(c));
    sys := Next(sys, BeginStop(c));
    sys := EmptyingCompletes(sys, content);
    ReachableNext(sys, RedeployCall(Done, content));
    sys := Next(sys, RedeployCall(Done, content));
    assert At(0) == AddonController;
  }
}
