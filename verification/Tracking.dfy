/** The tracker: which shard each cluster was last seen in, which clusters each shard has, and
    the deployments that follow from them. */
module Tracking {
  import opened ShardTypes
  import opened Deployments

  /** clusterMap and shardMap. A shard without an entry has no set yet. */
  datatype Maps = Maps(clusterMap: map<Cluster, Shard>, shardMap: map<Shard, set<Cluster>>)

  datatype State = State(maps: Maps, store: Store)

  datatype Call = DeployCall(shard: Shard) | UndeployCall(shard: Shard)

  /** The state a step leaves, whether it reported success, and the calls it made. */
  datatype Outcome = Outcome(state: State, ok: bool, calls: seq<Call>)

  const INITIAL: State := State(Maps(map[], map[]), map[])

  function Members(m: Maps, s: Shard): set<Cluster> {
    if s in m.shardMap then m.shardMap[s] else {}
  }

  /** The shard recorded for a cluster; a missing entry reads as the default shard. */
  function Recorded(m: Maps, c: Cluster): Shard {
    if c in m.clusterMap then m.clusterMap[c] else DEFAULT_SHARD
  }

  /** The cluster is the last one of the shard it is recorded in. */
  predicate LastOfOld(m: Maps, c: Cluster) {
    c in m.clusterMap && Members(m, m.clusterMap[c]) == {c}
  }

  /** Takes the cluster out of the set of the shard it is recorded in. */
  function Detach(m: Maps, c: Cluster): Maps {
    var s := Recorded(m, c);
    if c in m.clusterMap && s in m.shardMap then m.(shardMap := m.shardMap[s := m.shardMap[s] - {c}]) else m
  }

  function Attach(m: Maps, c: Cluster, k: Shard): Maps {
    Maps(m.clusterMap[c := k], m.shardMap[k := Members(m, k) + {c}])
  }

  /** Drops the cluster from both maps. */
  function Forget(m: Maps, c: Cluster): Maps {
    var s := Recorded(m, c);
    Maps(m.clusterMap - {c}, if c in Members(m, s) then m.shardMap[s := m.shardMap[s] - {c}] else m.shardMap)
  }

  /** The first half of trackCluster: a tracked cluster leaves the shard it is recorded in, after
      the controllers of that shard are undeployed if it is the last one. */
  function Leave(st: State, c: Cluster, u: UndeployRun): Outcome {
    var s := Recorded(st.maps, c);
    if !LastOfOld(st.maps, c) then Outcome(State(Detach(st.maps, c), st.store), true, [])
    else
      Outcome(
        State(if UndeployOk(s, u) then Detach(st.maps, c) else st.maps, UndeployFrom(st.store, s, u)),
        UndeployOk(s, u),
        [UndeployCall(s)])
  }

  /** The second half: the cluster joins the shard, after the controllers are deployed if it is
      the first one. */
  function Arrive(st: State, c: Cluster, k: Shard, d: DeployRun): Outcome {
    if Members(st.maps, k) != {} then Outcome(State(Attach(st.maps, c, k), st.store), true, [])
    else
      Outcome(
        State(if DeployOk(k, d) then Attach(st.maps, c, k) else st.maps, DeployTo(st.store, k, d)),
        DeployOk(k, d),
        [DeployCall(k)])
  }

  /** trackCluster. */
  function Track(st: State, c: Cluster, k: Shard, u: UndeployRun, d: DeployRun): Outcome {
    if c in st.maps.clusterMap && st.maps.clusterMap[c] == k then Outcome(st, true, [])
    else
      var left := Leave(st, c, u);
      if !left.ok then left
      else
        var arrived := Arrive(left.state, c, k, d);
        Outcome(arrived.state, arrived.ok, left.calls + arrived.calls)
  }

  /** stopTrackingCluster. */
  function Stop(st: State, c: Cluster, u: UndeployRun): Outcome {
    var s := Recorded(st.maps, c);
    var m := Forget(st.maps, c);
    if c in Members(st.maps, s) && Members(m, s) == {} then
      Outcome(State(m, UndeployFrom(st.store, s, u)), UndeployOk(s, u), [UndeployCall(s)])
    else Outcome(State(m, st.store), true, [])
  }

  // ---------- Agreement of the two maps ----------

  /** A cluster in a shard's set is recorded in that shard, and every recorded shard has a set. */
  ghost predicate Agree(m: Maps) {
    && (forall s, c :: c in Members(m, s) ==> c in m.clusterMap && m.clusterMap[c] == s)
    && (forall c :: c in m.clusterMap ==> m.clusterMap[c] in m.shardMap)
  }

  /** The clusters recorded in a shard whose set does not have them. */
  function Limbo(m: Maps): set<Cluster> {
    set c | c in m.clusterMap && c !in Members(m, m.clusterMap[c])
  }

  lemma TrackKeepsAgreement(st: State, c: Cluster, k: Shard, u: UndeployRun, d: DeployRun)
    requires Agree(st.maps)
    ensures Agree(Track(st, c, k, u, d).state.maps)
    ensures st.maps.shardMap.Keys <= Track(st, c, k, u, d).state.maps.shardMap.Keys
  {
    var m := st.maps;
    DetachKeepsAgreement(m, c);
    AttachKeepsAgreement(Detach(m, c), c, k);
  }

  lemma LeaveKeepsAgreement(st: State, c: Cluster)
    requires Agree(st.maps)
    ensures forall u :: Agree(Leave(st, c, u).state.maps)
    ensures forall u, s :: Leave(st, c, u).ok ==> c !in Members(Leave(st, c, u).state.maps, s)
  {
    DetachKeepsAgreement(st.maps, c);
  }

  lemma ArriveKeepsAgreement(st: State, c: Cluster, k: Shard)
    requires Agree(st.maps) && forall s :: c !in Members(st.maps, s)
    ensures forall d :: Agree(Arrive(st, c, k, d).state.maps)
  {
    AttachKeepsAgreement(st.maps, c, k);
  }

  lemma DetachKeepsAgreement(m: Maps, c: Cluster)
    requires Agree(m)
    ensures Agree(Detach(m, c)) && Detach(m, c).clusterMap == m.clusterMap
    ensures forall s :: Members(Detach(m, c), s) == Members(m, s) - {c}
    ensures Detach(m, c).shardMap.Keys == m.shardMap.Keys
  {
    var after := Detach(m, c);
    forall s
      ensures Members(after, s) == Members(m, s) - {c}
    {
      if c in m.clusterMap && s != Recorded(m, c) {
        assert c !in Members(m, s);
      }
    }
  }

  lemma AttachKeepsAgreement(m: Maps, c: Cluster, k: Shard)
    requires Agree(m) && forall s :: c !in Members(m, s)
    ensures Agree(Attach(m, c, k))
    ensures forall s :: Members(Attach(m, c, k), s) == if s == k then Members(m, s) + {c} else Members(m, s)
  {
    var after := Attach(m, c, k);
    assert forall s :: Members(after, s) == if s == k then Members(m, s) + {c} else Members(m, s);
    forall s, x | x in Members(after, s)
      ensures x in after.clusterMap && after.clusterMap[x] == s
    {
      assert x != c ==> x in Members(m, s);
    }
  }

  lemma ForgetKeepsAgreement(m: Maps, c: Cluster)
    requires Agree(m)
    ensures Agree(Forget(m, c)) && Forget(m, c).clusterMap == m.clusterMap - {c}
    ensures forall s :: Members(Forget(m, c), s) == Members(m, s) - {c}
    ensures Forget(m, c).shardMap.Keys == m.shardMap.Keys
    ensures Limbo(Forget(m, c)) == Limbo(m) - {c}
  {
    var after := Forget(m, c);
    forall s
      ensures Members(after, s) == Members(m, s) - {c}
    {
      if s != Recorded(m, c) {
        assert c !in Members(m, s);
      }
    }
  }

  lemma StopKeepsAgreement(st: State, c: Cluster, u: UndeployRun)
    requires Agree(st.maps)
    ensures Agree(Stop(st, c, u).state.maps)
    ensures Stop(st, c, u).state.maps.shardMap.Keys == st.maps.shardMap.Keys
  {
    ForgetKeepsAgreement(st.maps, c);
  }

  /** Given agreement one way, the other way fails for the clusters in limbo and only for them. */
  lemma IndexAgreement(m: Maps, c: Cluster, s: Shard)
    requires Agree(m)
    ensures c in Members(m, s) <==> c in m.clusterMap && m.clusterMap[c] == s && c !in Limbo(m)
  {}

  /** The move got as far as taking the cluster out of its old set, and then the deploy failed. */
  predicate MoveFailedHalfway(st: State, c: Cluster, k: Shard, u: UndeployRun, d: DeployRun) {
    && c in st.maps.clusterMap && st.maps.clusterMap[c] != k
    && (LastOfOld(st.maps, c) ==> UndeployOk(st.maps.clusterMap[c], u))
    && Members(st.maps, k) == {} && !DeployOk(k, d)
  }

  /** The maps after a step, whatever failed. */
  lemma TrackMapsAre(st: State, c: Cluster, k: Shard, u: UndeployRun, d: DeployRun)
    requires Agree(st.maps) && !(c in st.maps.clusterMap && st.maps.clusterMap[c] == k)
    ensures var m, o := st.maps, Track(st, c, k, u, d);
            && o.state.maps == (
                 if LastOfOld(m, c) && !UndeployOk(m.clusterMap[c], u) then m
                 else if Members(m, k) == {} && !DeployOk(k, d) then Detach(m, c)
                 else Attach(Detach(m, c), c, k))
            && o.ok == (
                 && (LastOfOld(m, c) ==> UndeployOk(m.clusterMap[c], u))
                 && (Members(m, k) == {} ==> DeployOk(k, d)))
  {
    hide DeployTo, UndeployFrom, Attach;
    DetachKeepsAgreement(st.maps, c);
    assert c !in Members(st.maps, k);
    assert Members(Detach(st.maps, c), k) == Members(st.maps, k);
  }

  /** The store after a step that succeeds: first the undeploy, then the deploy. */
  lemma TrackStoreIs(st: State, c: Cluster, k: Shard, u: UndeployRun, d: DeployRun)
    requires Agree(st.maps) && !(c in st.maps.clusterMap && st.maps.clusterMap[c] == k)
    requires Track(st, c, k, u, d).ok
    ensures var m := st.maps;
            var left := if LastOfOld(m, c) then UndeployFrom(st.store, m.clusterMap[c], u) else st.store;
            Track(st, c, k, u, d).state.store == if Members(m, k) == {} then DeployTo(left, k, d) else left
  {
    hide DeployTo, UndeployFrom, Attach;
    DetachKeepsAgreement(st.maps, c);
    assert c !in Members(st.maps, k);
    assert Members(Detach(st.maps, c), k) == Members(st.maps, k);
  }

  /** One deployment after a step that succeeds. */
  lemma TrackStoreAt(st: State, c: Cluster, s: Shard, u: UndeployRun, d: DeployRun, k: Key)
    requires Agree(st.maps) && !(c in st.maps.clusterMap && st.maps.clusterMap[c] == s)
    requires Track(st, c, s, u, d).ok
    ensures var m, after := st.maps, Track(st, c, s, u, d).state.store;
            var deployed := k.shard == s != DEFAULT_SHARD && Members(m, s) == {};
            var undeployed := k.shard != DEFAULT_SHARD && LastOfOld(m, c) && m.clusterMap[c] == k.shard;
            && (deployed ==> d.ok)
            && (k in after <==> deployed || (!undeployed && k in st.store))
            && (k in after ==> after[k] == if deployed then d.applied[Rank(k.component)] else st.store[k])
  {
    TrackMapsAre(st, c, s, u, d);
    TrackStoreIs(st, c, s, u, d);
    hide Track, DeployTo, UndeployFrom, Agree, Members, Attach, Detach;
    var m := st.maps;
    var left := if LastOfOld(m, c) then UndeployFrom(st.store, m.clusterMap[c], u) else st.store;
    if LastOfOld(m, c) {
      UndeployAt(st.store, m.clusterMap[c], u, k);
    }
    if Members(m, s) == {} {
      DeployAt(left, s, d, k);
    }
  }

  lemma LimboDetached(m: Maps, c: Cluster, x: Cluster)
    requires Agree(m)
    ensures x in Limbo(Detach(m, c)) <==> if x == c then c in m.clusterMap else x in Limbo(m)
  {
    DetachKeepsAgreement(m, c);
    if x in m.clusterMap {
      IndexAgreement(m, x, m.clusterMap[x]);
      IndexAgreement(Detach(m, c), x, m.clusterMap[x]);
    }
    hide Agree;
  }

  lemma LimboAttached(m: Maps, c: Cluster, k: Shard, x: Cluster)
    ensures x in Limbo(Attach(m, c, k)) <==> x != c && x in Limbo(m)
  {}

  /** How limbo changes. Only the tracked cluster can enter it, by a move that failed halfway;
      it stays there when the requested shard is the recorded one, and leaves it otherwise. */
  lemma TrackLimbo(st: State, c: Cluster, k: Shard, u: UndeployRun, d: DeployRun)
    requires Agree(st.maps)
    ensures var after := Limbo(Track(st, c, k, u, d).state.maps);
            && (forall x :: x != c ==> (x in after <==> x in Limbo(st.maps)))
            && (c in after <==>
                  if c in st.maps.clusterMap && st.maps.clusterMap[c] == k then c in Limbo(st.maps)
                  else MoveFailedHalfway(st, c, k, u, d))
  {
    var m, after := st.maps, Track(st, c, k, u, d).state.maps;
    if !(c in m.clusterMap && m.clusterMap[c] == k) {
      TrackMapsAre(st, c, k, u, d);
      assert LastOfOld(m, c) ==> c !in Limbo(m);
      hide Track, Detach, Attach, Agree, Limbo, LastOfOld, Members;
      forall x
        ensures x in Limbo(after) <==>
                if x != c then x in Limbo(m) else MoveFailedHalfway(st, c, k, u, d)
      {
        LimboDetached(m, c, x);
        LimboAttached(Detach(m, c), c, k, x);
      }
    }
  }

  lemma StopLimbo(st: State, c: Cluster, u: UndeployRun)
    requires Agree(st.maps)
    ensures Limbo(Stop(st, c, u).state.maps) == Limbo(st.maps) - {c}
  {
    ForgetKeepsAgreement(st.maps, c);
  }

  /** The code says it keeps the two maps consistent even when the deploy fails. From consistent
      maps it does so unless the move failed halfway. */
  lemma ConsistentUnlessHalfway(st: State, c: Cluster, k: Shard, u: UndeployRun, d: DeployRun)
    requires Agree(st.maps) && Limbo(st.maps) == {}
    ensures Limbo(Track(st, c, k, u, d).state.maps) == {} <==> !MoveFailedHalfway(st, c, k, u, d)
  {
    TrackLimbo(st, c, k, u, d);
    var after := Limbo(Track(st, c, k, u, d).state.maps);
    assert after == {} <==> c !in after;
  }

  /** A successful trackCluster is meant to leave the cluster in the set of the shard. It does,
      except for a cluster in limbo that asks for the very shard it is recorded in. */
  lemma TrackedIsMember(st: State, c: Cluster, k: Shard, u: UndeployRun, d: DeployRun)
    requires Agree(st.maps) && Track(st, c, k, u, d).ok
    ensures var m := Track(st, c, k, u, d).state.maps;
            && c in m.clusterMap && m.clusterMap[c] == k
            && (c in Members(m, k) <==> !(c in Limbo(st.maps) && st.maps.clusterMap[c] == k))
  {
    DetachKeepsAgreement(st.maps, c);
    AttachKeepsAgreement(Detach(st.maps, c), c, k);
  }

  /** Such a cluster exists: a move from a to b fails halfway, the annotation goes back to a, and
      the next reconcile reports success although shard a has neither the cluster nor its
      deployments. */
  lemma RevertedMoveIsLost(c: Cluster, a: Shard, b: Shard, batch: DeployRun, u: UndeployRun, d: DeployRun)
    requires a != b && a != DEFAULT_SHARD && b != DEFAULT_SHARD && batch.ok && u.ok && !d.ok
    ensures var placed := Track(INITIAL, c, a, u, batch);
            var moved := Track(placed.state, c, b, u, d);
            var reverted := Track(moved.state, c, a, u, batch);
            && placed.ok && !moved.ok && reverted.ok && reverted.calls == []
            && Members(reverted.state.maps, a) == {} && Present(reverted.state.store, a) == {}
  {
    var placed := Track(INITIAL, c, a, u, batch);
    assert Members(placed.state.maps, a) == {c};
    var moved := Track(placed.state, c, b, u, d);
    assert Members(moved.state.maps, a) == {};
  }

  /** A related loss: an undeploy of shard a breaks off after its first deletion, the annotation
      goes back to a, and the next reconcile reports success without restoring what is gone. */
  lemma RevertedMoveStaysDegraded(st: State, c: Cluster, b: Shard, u: UndeployRun, d: DeployRun)
    requires LastOfOld(st.maps, c) && b != st.maps.clusterMap[c] && st.maps.clusterMap[c] != DEFAULT_SHARD
    requires !u.ok && u.deleted > 0
    ensures var a := st.maps.clusterMap[c];
            var moved := Track(st, c, b, u, d);
            var reverted := Track(moved.state, c, a, u, d);
            && !moved.ok && reverted.ok && reverted.calls == []
            && Members(reverted.state.maps, a) == {c} && AddonController !in Present(reverted.state.store, a)
  {}

  /** When a trackCluster that reports success leaves all five controllers of the requested shard
      in place: exactly when it was the one to deploy them, because the shard had no clusters and
      the cluster was not recorded in it, or when they were all there before. */
  lemma TrackedIsServed(st: State, c: Cluster, k: Shard, u: UndeployRun, d: DeployRun)
    requires Agree(st.maps) && k != DEFAULT_SHARD && Track(st, c, k, u, d).ok
    ensures var recorded := c in st.maps.clusterMap && st.maps.clusterMap[c] == k;
            Present(Track(st, c, k, u, d).state.store, k) == First(COMPONENT_COUNT) <==>
              (Members(st.maps, k) == {} && !recorded) || Present(st.store, k) == First(COMPONENT_COUNT)
  {
    if !(c in st.maps.clusterMap && st.maps.clusterMap[c] == k) {
      forall x: Component
        ensures Key(x, k) in Track(st, c, k, u, d).state.store <==> Members(st.maps, k) == {} || Key(x, k) in st.store
      {
        TrackStoreAt(st, c, k, u, d, Key(x, k));
      }
    }
    hide Track, Members, Agree;
    assert forall x: Component :: x in First(COMPONENT_COUNT);
  }

  // ---------- Stopping ----------

  /** A second stop changes nothing and calls nothing, whatever became of the first one. */
  lemma StopTwice(st: State, c: Cluster, u: UndeployRun, v: UndeployRun)
    requires Agree(st.maps)
    ensures Stop(Stop(st, c, u).state, c, v) == Outcome(Stop(st, c, u).state, true, [])
  {
    var once := Stop(st, c, u).state;
    ForgetKeepsAgreement(st.maps, c);
    assert once.maps.clusterMap - {c} == once.maps.clusterMap;
    assert c !in Members(once.maps, DEFAULT_SHARD);
  }

  /** Stopping a cluster that is untracked or in limbo touches no set and no deployment, even
      though a missing record reads as the default shard. */
  lemma StopWithoutMembership(st: State, c: Cluster, u: UndeployRun)
    requires Agree(st.maps) && (c !in st.maps.clusterMap || c in Limbo(st.maps))
    ensures Stop(st, c, u) == Outcome(State(Maps(st.maps.clusterMap - {c}, st.maps.shardMap), st.store), true, [])
  {
    assert c !in Members(st.maps, Recorded(st.maps, c));
  }

  // ---------- What a step leaves alone ----------

  /** Two states agree on the set and the deployments of a shard. */
  ghost predicate SameShard(a: State, b: State, s: Shard) {
    && Members(a.maps, s) == Members(b.maps, s)
    && (forall k: Key :: k.shard == s ==>
          (k in a.store <==> k in b.store) && (k in a.store ==> a.store[k] == b.store[k]))
  }

  lemma LeaveFrame(st: State, c: Cluster, u: UndeployRun, s: Shard)
    requires Agree(st.maps) && !(c in st.maps.clusterMap && st.maps.clusterMap[c] == s)
    ensures SameShard(st, Leave(st, c, u).state, s)
  {
    DetachKeepsAgreement(st.maps, c);
  }

  lemma ArriveFrame(st: State, c: Cluster, k: Shard, d: DeployRun, s: Shard)
    requires s != k
    ensures SameShard(st, Arrive(st, c, k, d).state, s)
  {}

  /** Nothing is deployed or deleted for the default shard. */
  lemma TrackSkipsDefault(st: State, c: Cluster, k: Shard, u: UndeployRun, d: DeployRun, x: Component)
    ensures Key(x, DEFAULT_SHARD) in Track(st, c, k, u, d).state.store <==> Key(x, DEFAULT_SHARD) in st.store
  {
    LeaveSkipsDefault(st, c, u, x);
    ArriveSkipsDefault(Leave(st, c, u).state, c, k, d, x);
    hide Leave, Arrive;
  }

  lemma LeaveSkipsDefault(st: State, c: Cluster, u: UndeployRun, x: Component)
    ensures Key(x, DEFAULT_SHARD) in Leave(st, c, u).state.store <==> Key(x, DEFAULT_SHARD) in st.store
  {}

  lemma ArriveSkipsDefault(st: State, c: Cluster, k: Shard, d: DeployRun, x: Component)
    ensures Key(x, DEFAULT_SHARD) in Arrive(st, c, k, d).state.store <==> Key(x, DEFAULT_SHARD) in st.store
  {}

  lemma StopSkipsDefault(st: State, c: Cluster, u: UndeployRun, x: Component)
    ensures Key(x, DEFAULT_SHARD) in Stop(st, c, u).state.store <==> Key(x, DEFAULT_SHARD) in st.store
  {}

  /** A step touches the recorded shard and the requested one only. */
  lemma TrackFrame(st: State, c: Cluster, k: Shard, u: UndeployRun, d: DeployRun, s: Shard)
    requires Agree(st.maps) && s != k && !(c in st.maps.clusterMap && st.maps.clusterMap[c] == s)
    ensures SameShard(st, Track(st, c, k, u, d).state, s)
  {
    hide Leave, Arrive, Agree;
    LeaveFrame(st, c, u, s);
    ArriveFrame(Leave(st, c, u).state, c, k, d, s);
  }

  lemma StopFrame(st: State, c: Cluster, u: UndeployRun, s: Shard)
    requires Agree(st.maps) && !(c in st.maps.clusterMap && st.maps.clusterMap[c] == s)
    ensures SameShard(st, Stop(st, c, u).state, s)
  {
    ForgetKeepsAgreement(st.maps, c);
  }

  // ---------- Retrying ----------

  datatype Attempt = Attempt(u: UndeployRun, d: DeployRun)

  /** The state after reconciling the same cluster again and again. */
  function Retried(st: State, c: Cluster, k: Shard, attempts: seq<Attempt>): State
    decreases |attempts|
  {
    if attempts == [] then st
    else Retried(Track(st, c, k, attempts[0].u, attempts[0].d).state, c, k, attempts[1..])
  }

  ghost predicate AllFail(st: State, c: Cluster, k: Shard, attempts: seq<Attempt>)
    decreases |attempts|
  {
    attempts == [] ||
    (var first := Track(st, c, k, attempts[0].u, attempts[0].d);
     !first.ok && AllFail(first.state, c, k, attempts[1..]))
  }

  /** An undeploy that failed is made good by the next one. */
  lemma LeaveAgain(st: State, c: Cluster, u: UndeployRun, v: UndeployRun)
    requires !Leave(st, c, u).ok && v.ok
    ensures Leave(Leave(st, c, u).state, c, v) == Leave(st, c, v)
  {
    var s := Recorded(st.maps, c);
    assert Deleted(Deleted(st.store, s, u.deleted), s, v.deleted) == Deleted(st.store, s, v.deleted);
  }

  /** A cluster that has left does not leave again. */
  lemma LeaveDone(st: State, c: Cluster, u: UndeployRun, after: Store, v: UndeployRun)
    requires Leave(st, c, u).ok
    ensures var left := State(Leave(st, c, u).state.maps, after);
            Leave(left, c, v) == Outcome(left, true, [])
  {
    var m, s := st.maps, Recorded(st.maps, c);
    if c in m.clusterMap && s in m.shardMap {
      assert m.shardMap[s] - {c} - {c} == m.shardMap[s] - {c};
    }
    assert Detach(Detach(m, c), c) == Detach(m, c);
    assert c !in Members(Detach(m, c), s) || c !in m.clusterMap;
  }

  /** A deploy that failed is made good by the next one. */
  lemma ArriveAgain(st: State, c: Cluster, k: Shard, d: DeployRun, e: DeployRun)
    requires !Arrive(st, c, k, d).ok && e.ok
    ensures Arrive(Arrive(st, c, k, d).state, c, k, e) == Arrive(st, c, k, e)
  {
    assert Applied(Applied(st.store, k, d.applied), k, e.applied) == Applied(st.store, k, e.applied);
  }

  lemma LeaveSucceeds(st: State, c: Cluster, u: UndeployRun, v: UndeployRun)
    requires Leave(st, c, u).ok && v.ok
    ensures Leave(st, c, u) == Leave(st, c, v)
  {}

  lemma ArriveFailsInPlace(st: State, c: Cluster, k: Shard, d: DeployRun)
    requires !Arrive(st, c, k, d).ok
    ensures Arrive(st, c, k, d).state.maps == st.maps
  {}

  lemma LeaveKeepsRecord(st: State, c: Cluster, u: UndeployRun)
    ensures Leave(st, c, u).state.maps.clusterMap == st.maps.clusterMap
  {}

  lemma RetryOnce(st: State, c: Cluster, k: Shard, u: UndeployRun, d: DeployRun, v: UndeployRun, e: DeployRun)
    requires !Track(st, c, k, u, d).ok && v.ok && e.ok
    ensures Track(Track(st, c, k, u, d).state, c, k, v, e).state == Track(st, c, k, v, e).state
  {
    hide Leave, Arrive;
    var left := Leave(st, c, u);
    LeaveKeepsRecord(st, c, u);
    if !left.ok {
      LeaveAgain(st, c, u, v);
    } else {
      var failed := Arrive(left.state, c, k, d).state;
      ArriveFailsInPlace(left.state, c, k, d);
      LeaveDone(st, c, u, failed.store, v);
      LeaveSucceeds(st, c, u, v);
      ArriveAgain(left.state, c, k, d, e);
    }
  }

  /** Any number of failed attempts, wherever each one broke off, leaves nothing behind once an
      attempt succeeds: the result is that of succeeding at once. */
  lemma {:induction false} RetryRecovers(
      st: State, c: Cluster, k: Shard, attempts: seq<Attempt>, v: UndeployRun, e: DeployRun)
    requires AllFail(st, c, k, attempts) && v.ok && e.ok
    ensures Track(Retried(st, c, k, attempts), c, k, v, e).state == Track(st, c, k, v, e).state
    ensures Track(Retried(st, c, k, attempts), c, k, v, e).ok
    decreases |attempts|
  {
    if attempts != [] {
      var a := attempts[0];
      RetryRecovers(Track(st, c, k, a.u, a.d).state, c, k, attempts[1..], v, e);
      RetryOnce(st, c, k, a.u, a.d, v, e);
    }
  }

  // ---------- Every reachable state, failures included ----------

  datatype Event =
    | Tracked(cluster: Cluster, shard: Shard, u: UndeployRun, d: DeployRun)
    | Stopped(cluster: Cluster, u: UndeployRun)
    | Redeployed(pass: RedeployPass)

  function Step(st: State, e: Event): State {
    match e
    case Tracked(c, k, u, d) => Track(st, c, k, u, d).state
    case Stopped(c, u) => Stop(st, c, u).state
    case Redeployed(p) => State(st.maps, RedeployList(st.store, p.shards, p.runs))
  }

  function Run(st: State, events: seq<Event>): State {
    if events == [] then st else Step(Run(st, events[..|events| - 1]), events[|events| - 1])
  }

  lemma {:induction false} RedeploySkipsDefault(store: Store, shards: seq<Shard>, runs: seq<DeployRun>)
    requires |runs| <= |shards|
    ensures forall k: Key :: k.shard == DEFAULT_SHARD ==> (k in RedeployList(store, shards, runs) <==> k in store)
  {
    if runs != [] {
      RedeploySkipsDefault(store, shards, runs[..|runs| - 1]);
    }
  }

  /** In every reachable state the maps agree one way, no shard ever loses its set, and nothing
      is created or deleted for the default shard. */
  lemma {:induction false} ReachableAgrees(st: State, events: seq<Event>)
    requires Agree(st.maps)
    ensures var after := Run(st, events);
            && Agree(after.maps)
            && st.maps.shardMap.Keys <= after.maps.shardMap.Keys
            && Present(after.store, DEFAULT_SHARD) == Present(st.store, DEFAULT_SHARD)
  {
    if events != [] {
      var before, e := Run(st, events[..|events| - 1]), events[|events| - 1];
      ReachableAgrees(st, events[..|events| - 1]);
      match e
      case Tracked(c, k, u, d) =>
        TrackKeepsAgreement(before, c, k, u, d);
        forall x {
          TrackSkipsDefault(before, c, k, u, d, x);
        }
      case Stopped(c, u) =>
        StopKeepsAgreement(before, c, u);
        forall x {
          StopSkipsDefault(before, c, u, x);
        }
      case Redeployed(p) =>
        RedeploySkipsDefault(before.store, p.shards, p.runs);
    }
  }

  /** The event takes no part in getting the cluster out of limbo: it is not a stop, and a track
      of the cluster either fails or asks for the shard the cluster is recorded in. */
  predicate LeavesInLimbo(before: State, e: Event, c: Cluster) {
    match e
    case Tracked(x, k, u, d) => x == c ==> !Track(before, x, k, u, d).ok || Recorded(before.maps, c) == k
    case Stopped(x, _) => x != c
    case Redeployed(_) => true
  }

  predicate EntersLimbo(before: State, e: Event, c: Cluster) {
    e.Tracked? && e.cluster == c && MoveFailedHalfway(before, c, e.shard, e.u, e.d)
  }

  lemma StepLimbo(before: State, e: Event, c: Cluster)
    requires Agree(before.maps)
    ensures c in Limbo(Step(before, e).maps) <==>
            EntersLimbo(before, e, c) || (c in Limbo(before.maps) && LeavesInLimbo(before, e, c))
  {
    match e
    case Tracked(x, k, u, d) =>
      TrackLimbo(before, x, k, u, d);
      if x == c && !(c in before.maps.clusterMap && before.maps.clusterMap[c] == k) {
        TrackMapsAre(before, c, k, u, d);
        assert LastOfOld(before.maps, c) ==> c !in Limbo(before.maps);
      }
    case Stopped(x, u) => StopLimbo(before, x, u);
    case Redeployed(p) =>
  }

  /** Event j put the cluster in limbo, and no later event of the run got it out. */
  ghost predicate LimboSince(events: seq<Event>, c: Cluster, j: int) {
    && 0 <= j < |events| && EntersLimbo(Run(INITIAL, events[..j]), events[j], c)
    && forall i :: j < i < |events| ==> LeavesInLimbo(Run(INITIAL, events[..i]), events[i], c)
  }

  lemma LimboSinceLast(events: seq<Event>, c: Cluster, j: int)
    requires events != []
    ensures var init, e := events[..|events| - 1], events[|events| - 1];
            LimboSince(events, c, j) <==>
              if j == |events| - 1 then EntersLimbo(Run(INITIAL, init), e, c)
              else LimboSince(init, c, j) && LeavesInLimbo(Run(INITIAL, init), e, c)
  {
    hide EntersLimbo, LeavesInLimbo, Run;
    var last := |events| - 1;
    var init := events[..last];
    assert forall i :: 0 <= i <= last ==> init[..i] == events[..i];
    assert forall i :: 0 <= i < last ==> init[i] == events[i];
  }

  /** Over a whole run: a cluster is in limbo exactly when some move of it failed halfway, and
      since then it was not stopped and no track of it to another shard succeeded. */
  lemma {:induction false} LimboHistory(events: seq<Event>, c: Cluster)
    ensures c in Limbo(Run(INITIAL, events).maps) <==> exists j :: LimboSince(events, c, j)
  {
    if events != [] {
      var init, e := events[..|events| - 1], events[|events| - 1];
      LimboHistory(init, c);
      ReachableAgrees(INITIAL, init);
      StepLimbo(Run(INITIAL, init), e, c);
      forall j
        ensures LimboSince(events, c, j) <==>
                if j == |events| - 1 then EntersLimbo(Run(INITIAL, init), e, c)
                else LimboSince(init, c, j) && LeavesInLimbo(Run(INITIAL, init), e, c)
      {
        LimboSinceLast(events, c, j);
      }
      assert LimboSince(events, c, |events| - 1) <==> EntersLimbo(Run(INITIAL, init), e, c);
      hide EntersLimbo, LeavesInLimbo, Limbo, Step, LimboSince;
      assert !LimboSince(init, c, |events| - 1) by {
        NotYet(init, c, |events| - 1);
      }
    }
  }

  lemma NotYet(events: seq<Event>, c: Cluster, j: int)
    requires j >= |events|
    ensures !LimboSince(events, c, j)
  {}

  // ---------- Conservation ----------

  /** The sum of the sizes of the sets of some shards. */
  ghost function TotalSize(m: Maps, shards: set<Shard>): nat {
    if shards == {} then 0
    else
      var s := Pick(shards);
      |Members(m, s)| + TotalSize(m, shards - {s})
  }

  function MembersOf(m: Maps, shards: set<Shard>): set<Cluster> {
    set c | c in m.clusterMap && m.clusterMap[c] in shards && c in Members(m, m.clusterMap[c])
  }

  lemma {:induction false} TotalIsUnion(m: Maps, shards: set<Shard>)
    requires Agree(m)
    ensures TotalSize(m, shards) == |MembersOf(m, shards)|
  {
    if shards != {} {
      var s := Pick(shards);
      TotalIsUnion(m, shards - {s});
      assert MembersOf(m, shards) == Members(m, s) + MembersOf(m, shards - {s});
      assert Members(m, s) !! MembersOf(m, shards - {s});
    }
  }

  lemma SetsDisjoint(m: Maps, s: Shard, t: Shard)
    requires Agree(m) && s != t
    ensures Members(m, s) !! Members(m, t)
  {
    assert forall c :: c in Members(m, s) ==> m.clusterMap[c] == s;
    assert forall c :: c in Members(m, t) ==> m.clusterMap[c] == t;
  }

  /** The sets and the clusters in limbo together account for every tracked cluster exactly
      once. */
  lemma Conservation(m: Maps)
    requires Agree(m)
    ensures TotalSize(m, m.shardMap.Keys) + |Limbo(m)| == |m.clusterMap.Keys|
  {
    TotalIsUnion(m, m.shardMap.Keys);
    PlacedOrLimbo(m);
  }

  lemma ReachableConserves(events: seq<Event>)
    ensures var m := Run(INITIAL, events).maps;
            && (forall s, t :: s != t ==> Members(m, s) !! Members(m, t))
            && TotalSize(m, m.shardMap.Keys) + |Limbo(m)| == |m.clusterMap.Keys|
  {
    var m := Run(INITIAL, events).maps;
    ReachableAgrees(INITIAL, events);
    Conservation(m);
    forall s, t | s != t
      ensures Members(m, s) !! Members(m, t)
    {
      SetsDisjoint(m, s, t);
    }
  }

  lemma PlacedOrLimbo(m: Maps)
    requires Agree(m)
    ensures |MembersOf(m, m.shardMap.Keys)| + |Limbo(m)| == |m.clusterMap.Keys|
  {
    var placed := MembersOf(m, m.shardMap.Keys);
    assert m.clusterMap.Keys == placed + Limbo(m);
    assert placed !! Limbo(m);
  }
}
