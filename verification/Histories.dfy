/** Runs of the tracker against what was observed. Without failures the tracker refines a map from
    each cluster to its last observed shard, and the deployments are the ones that map asks for. */
module Histories {
  import opened ShardTypes
  import opened Rendering
  import opened Deployments
  import opened Tracking

  // ---------- The specification ----------

  function Observed(spec: map<Cluster, Shard>, e: Event): map<Cluster, Shard> {
    match e
    case Tracked(c, k, _, _) => spec[c := k]
    case Stopped(c, _) => spec - {c}
    case Redeployed(_) => spec
  }

  /** The fold of the observations. */
  function Fold(events: seq<Event>): map<Cluster, Shard> {
    if events == [] then map[] else Observed(Fold(events[..|events| - 1]), events[|events| - 1])
  }

  function Preimage(spec: map<Cluster, Shard>, s: Shard): set<Cluster> {
    set c | c in spec && spec[c] == s
  }

  /** The deployments wanted: five for each non-default shard that some cluster is in. */
  ghost predicate Wanted(spec: map<Cluster, Shard>, k: Key) {
    k.shard != DEFAULT_SHARD && Preimage(spec, k.shard) != {}
  }

  ghost predicate MapsRefine(m: Maps, spec: map<Cluster, Shard>) {
    && m.clusterMap == spec
    && (forall c :: c in spec ==> spec[c] in m.shardMap)
    && (forall s :: Members(m, s) == Preimage(spec, s))
  }

  ghost predicate RendersKey(cfg: Config, patches: multiset<string>, k: Key, content: Content) {
    IsRendering(k.component, cfg, k.shard, patches, content)
  }

  ghost predicate HasAsWanted(
    store: Store, spec: map<Cluster, Shard>, cfg: Config, patches: multiset<string>, k: Key)
  {
    && (k in store <==> Wanted(spec, k))
    && (k in store ==> RendersKey(cfg, patches, k, store[k]))
  }

  ghost predicate Refines(st: State, spec: map<Cluster, Shard>, cfg: Config, patches: multiset<string>) {
    && MapsRefine(st.maps, spec)
    && (forall k :: HasAsWanted(st.store, spec, cfg, patches, k))
  }

  // ---------- The run ----------

  /** A snapshot of redeployAllShards: the active shards, each once, in any order. */
  ghost predicate IsSnapshot(order: seq<Shard>, m: Maps) {
    && (forall s :: s in order <==> s != DEFAULT_SHARD && Members(m, s) != {})
    && (forall i, j :: 0 <= i < j < |order| ==> order[i] != order[j])
  }

  /** The event is one that reports success: a redeploy does when it gets through the snapshot it
      took. */
  ghost predicate Succeeds(st: State, e: Event) {
    match e
    case Tracked(c, k, u, d) => Track(st, c, k, u, d).ok
    case Stopped(c, u) => Stop(st, c, u).ok
    case Redeployed(p) =>
      IsSnapshot(p.shards, st.maps) && |p.runs| == |p.shards| && AllOk(p.runs)
  }

  /** What the event applies is rendered from the configuration and the patches. Two renderings
      of one component need not be equal. */
  ghost predicate Rendered(e: Event, cfg: Config, patches: multiset<string>) {
    match e
    case Tracked(_, k, _, d) => AllRendered(cfg, k, patches, d.applied)
    case Stopped(_, _) => true
    case Redeployed(p) =>
      forall i :: 0 <= i < |p.runs| ==> AllRendered(cfg, p.shards[i], patches, p.runs[i].applied)
  }

  ghost predicate FailureFree(events: seq<Event>) {
    forall i :: 0 <= i < |events| ==> Succeeds(Run(INITIAL, events[..i]), events[i])
  }

  /** Configuration and patches stay the same over the run. */
  ghost predicate RenderedFrom(events: seq<Event>, cfg: Config, patches: multiset<string>) {
    forall i :: 0 <= i < |events| ==> Rendered(events[i], cfg, patches)
  }

  lemma FailureFreeInit(events: seq<Event>)
    requires FailureFree(events) && events != []
    ensures var init, e := events[..|events| - 1], events[|events| - 1];
            FailureFree(init) && Succeeds(Run(INITIAL, init), e)
  {
    hide Succeeds, Run;
    var last := |events| - 1;
    assert forall i :: 0 <= i < last ==> events[..last][..i] == events[..i];
  }

  lemma FailureFreeNext(events: seq<Event>, e: Event)
    requires FailureFree(events) && Succeeds(Run(INITIAL, events), e)
    ensures FailureFree(events + [e])
  {
    hide Succeeds, Run;
    var longer := events + [e];
    assert forall i :: 0 <= i <= |events| ==> longer[..i] == events[..i];
    assert events[..|events|] == events;
  }

  // ---------- Refinement ----------

  lemma PreimagesAfterTrack(spec: map<Cluster, Shard>, c: Cluster, s: Shard, t: Shard)
    ensures Preimage(spec[c := s], t) == if t == s then Preimage(spec, t) + {c} else Preimage(spec, t) - {c}
  {}

  lemma PreimagesAfterStop(spec: map<Cluster, Shard>, c: Cluster, t: Shard)
    ensures Preimage(spec - {c}, t) == Preimage(spec, t) - {c}
  {}

  lemma RefinedMapsAgree(m: Maps, spec: map<Cluster, Shard>)
    requires MapsRefine(m, spec)
    ensures Agree(m) && Limbo(m) == {}
  {}

  lemma TrackMaps(st: State, spec: map<Cluster, Shard>, c: Cluster, s: Shard, u: UndeployRun, d: DeployRun)
    requires MapsRefine(st.maps, spec) && Track(st, c, s, u, d).ok
    ensures MapsRefine(Track(st, c, s, u, d).state.maps, spec[c := s])
  {
    var m := st.maps;
    RefinedMapsAgree(m, spec);
    if c in spec && spec[c] == s {
      assert spec[c := s] == spec;
    } else {
      TrackMapsAre(st, c, s, u, d);
      hide Track;
      DetachKeepsAgreement(m, c);
      AttachKeepsAgreement(Detach(m, c), c, s);
      var after := Attach(Detach(m, c), c, s);
      forall t
        ensures Members(after, t) == Preimage(spec[c := s], t)
      {
        PreimagesAfterTrack(spec, c, s, t);
      }
    }
  }

  /** Taking one element out of a set that has others leaves some. */
  lemma OthersStay(members: set<Cluster>, c: Cluster)
    ensures members - {c} == {} <==> members == {} || members == {c}
  {
    assert members == {} || members == {c} ==> members - {c} == {};
    if members - {c} == {} && members != {} {
      assert forall x :: x in members ==> x == c by {
        assert forall x :: x in members && x != c ==> x in members - {c};
      }
    }
  }

  lemma RunRenders(cfg: Config, patches: multiset<string>, k: Key, d: DeployRun)
    requires d.ok && AllRendered(cfg, k.shard, patches, d.applied)
    ensures RendersKey(cfg, patches, k, d.applied[Rank(k.component)])
  {
    hide IsRendering;
    assert At(Rank(k.component)) == k.component;
  }

  lemma TrackStore(st: State, spec: map<Cluster, Shard>, c: Cluster, s: Shard, u: UndeployRun, d: DeployRun,
                   cfg: Config, patches: multiset<string>, k: Key)
    requires MapsRefine(st.maps, spec) && HasAsWanted(st.store, spec, cfg, patches, k)
    requires Track(st, c, s, u, d).ok && AllRendered(cfg, s, patches, d.applied)
    ensures HasAsWanted(Track(st, c, s, u, d).state.store, spec[c := s], cfg, patches, k)
  {
    var m := st.maps;
    RefinedMapsAgree(m, spec);
    if c in spec && spec[c] == s {
      assert spec[c := s] == spec;
    } else {
      TrackStoreAt(st, c, s, u, d, k);
      PreimagesAfterTrack(spec, c, s, k.shard);
      assert Members(m, s) == Preimage(spec, s) && Members(m, k.shard) == Preimage(spec, k.shard);
      assert c in Members(m, k.shard) <==> c in spec && spec[c] == k.shard;
      OthersStay(Members(m, k.shard), c);
      hide Track, Agree, Preimage, Members, MapsRefine, RendersKey, AllRendered;
      if k.shard == s && d.ok {
        RunRenders(cfg, patches, k, d);
      }
    }
  }

  lemma TrackRefines(st: State, spec: map<Cluster, Shard>, c: Cluster, s: Shard, u: UndeployRun, d: DeployRun,
                     cfg: Config, patches: multiset<string>)
    requires Refines(st, spec, cfg, patches)
    requires Track(st, c, s, u, d).ok && AllRendered(cfg, s, patches, d.applied)
    ensures Refines(Track(st, c, s, u, d).state, spec[c := s], cfg, patches)
  {
    hide Track, MapsRefine, HasAsWanted, AllRendered;
    TrackMaps(st, spec, c, s, u, d);
    var store, wanted := Track(st, c, s, u, d).state.store, spec[c := s];
    forall k
      ensures HasAsWanted(store, wanted, cfg, patches, k)
    {
      TrackStore(st, spec, c, s, u, d, cfg, patches, k);
    }
  }

  lemma StopMaps(st: State, spec: map<Cluster, Shard>, c: Cluster, u: UndeployRun)
    requires MapsRefine(st.maps, spec)
    ensures MapsRefine(Stop(st, c, u).state.maps, spec - {c})
  {
    RefinedMapsAgree(st.maps, spec);
    ForgetKeepsAgreement(st.maps, c);
    forall t
      ensures Members(Forget(st.maps, c), t) == Preimage(spec - {c}, t)
    {
      PreimagesAfterStop(spec, c, t);
    }
  }

  lemma StopStore(st: State, spec: map<Cluster, Shard>, c: Cluster, u: UndeployRun,
                  cfg: Config, patches: multiset<string>, k: Key)
    requires MapsRefine(st.maps, spec) && HasAsWanted(st.store, spec, cfg, patches, k)
    requires Stop(st, c, u).ok
    ensures HasAsWanted(Stop(st, c, u).state.store, spec - {c}, cfg, patches, k)
  {
    hide RendersKey, UndeployFrom;
    var m, s := st.maps, Recorded(st.maps, c);
    RefinedMapsAgree(m, spec);
    ForgetKeepsAgreement(m, c);
    PreimagesAfterStop(spec, c, k.shard);
    assert Members(m, k.shard) == Preimage(spec, k.shard);
    if UndeployOk(s, u) {
      UndeployAt(st.store, s, u, k);
    }
  }

  lemma StopRefines(st: State, spec: map<Cluster, Shard>, c: Cluster, u: UndeployRun,
                    cfg: Config, patches: multiset<string>)
    requires Refines(st, spec, cfg, patches) && Stop(st, c, u).ok
    ensures Refines(Stop(st, c, u).state, spec - {c}, cfg, patches)
  {
    hide Stop, MapsRefine, HasAsWanted;
    StopMaps(st, spec, c, u);
    var store, wanted := Stop(st, c, u).state.store, spec - {c};
    forall k
      ensures HasAsWanted(store, wanted, cfg, patches, k)
    {
      StopStore(st, spec, c, u, cfg, patches, k);
    }
  }

  /** A redeploy that succeeds puts a rendering in the place of every deployment, and adds and
      removes none. */
  lemma RedeployStore(st: State, spec: map<Cluster, Shard>, p: RedeployPass,
                      cfg: Config, patches: multiset<string>, k: Key)
    requires MapsRefine(st.maps, spec) && HasAsWanted(st.store, spec, cfg, patches, k)
    requires Succeeds(st, Redeployed(p)) && Rendered(Redeployed(p), cfg, patches)
    ensures HasAsWanted(RedeployList(st.store, p.shards, p.runs), spec, cfg, patches, k)
  {
    hide RendersKey, AllRendered, Preimage, RedeployList;
    assert Members(st.maps, k.shard) == Preimage(spec, k.shard);
    assert Wanted(spec, k) <==> k.shard in p.shards;
    RedeployAccount(st.store, p.shards, p.runs, k);
    if k.shard in p.shards {
      var i :| 0 <= i < |p.shards| && p.shards[i] == k.shard;
      RunRenders(cfg, patches, k, p.runs[i]);
    } else {
      assert p.shards[..|p.runs|] == p.shards;
    }
  }

  lemma RedeployRefines(st: State, spec: map<Cluster, Shard>, p: RedeployPass, cfg: Config, patches: multiset<string>)
    requires Refines(st, spec, cfg, patches)
    requires Succeeds(st, Redeployed(p)) && Rendered(Redeployed(p), cfg, patches)
    ensures Refines(Step(st, Redeployed(p)), spec, cfg, patches)
  {
    hide MapsRefine, HasAsWanted, Succeeds, Rendered, RedeployList;
    var store := RedeployList(st.store, p.shards, p.runs);
    forall k
      ensures HasAsWanted(store, spec, cfg, patches, k)
    {
      RedeployStore(st, spec, p, cfg, patches, k);
    }
  }

  /** Over every run in which nothing fails the cluster map is the fold of the observations, the
      set of a shard is its preimage, and exactly the wanted deployments exist, each of them a
      rendering of its component for its shard. */
  lemma {:induction false} Refinement(events: seq<Event>, cfg: Config, patches: multiset<string>)
    requires FailureFree(events) && RenderedFrom(events, cfg, patches)
    ensures Refines(Run(INITIAL, events), Fold(events), cfg, patches)
  {
    if events == [] {
      assert forall s :: Preimage(map[], s) == {};
    } else {
      var init, e := events[..|events| - 1], events[|events| - 1];
      FailureFreeInit(events);
      Refinement(init, cfg, patches);
      hide Refines, AllRendered, Track, Stop, FailureFree;
      var before, spec := Run(INITIAL, init), Fold(init);
      assert Rendered(e, cfg, patches);
      match e
      case Tracked(c, k, u, d) => TrackRefines(before, spec, c, k, u, d, cfg, patches);
      case Stopped(c, u) => StopRefines(before, spec, c, u, cfg, patches);
      case Redeployed(p) => RedeployRefines(before, spec, p, cfg, patches);
    }
  }

  /** The part about the maps, for which it does not matter what was applied. */
  lemma {:induction false} RefinedMaps(events: seq<Event>)
    requires FailureFree(events)
    ensures MapsRefine(Run(INITIAL, events).maps, Fold(events))
  {
    if events == [] {
      assert forall s :: Preimage(map[], s) == {};
    } else {
      var init, e := events[..|events| - 1], events[|events| - 1];
      FailureFreeInit(events);
      RefinedMaps(init);
      hide MapsRefine, Track, Stop, FailureFree;
      var before, spec := Run(INITIAL, init), Fold(init);
      match e
      case Tracked(c, k, u, d) => TrackMaps(before, spec, c, k, u, d);
      case Stopped(c, u) => StopMaps(before, spec, c, u);
      case Redeployed(p) =>
    }
  }

  // ---------- The maps when calls fail ----------

  /** The fold of the observations that counted: a track that reports an error records nothing, and
      a stop erases the cluster even when it reports one. */
  function FoldCounted(events: seq<Event>): map<Cluster, Shard> {
    if events == [] then map[]
    else
      var init, e := events[..|events| - 1], events[|events| - 1];
      var counted := FoldCounted(init);
      match e
      case Tracked(c, k, u, d) => if Track(Run(INITIAL, init), c, k, u, d).ok then counted[c := k] else counted
      case Stopped(c, _) => counted - {c}
      case Redeployed(_) => counted
  }

  /** In every reachable state the cluster map is that fold, and the set of a shard is its preimage
      without the clusters in limbo, whose history LimboHistory gives. */
  lemma RecordedHistory(events: seq<Event>)
    ensures var m := Run(INITIAL, events).maps;
            && m.clusterMap == FoldCounted(events)
            && (forall s :: Members(m, s) == Preimage(FoldCounted(events), s) - Limbo(m))
  {
    var m := Run(INITIAL, events).maps;
    ReachableAgrees(INITIAL, events);
    CountedIsRecorded(events);
    forall s, c
      ensures c in Members(m, s) <==> c in Preimage(m.clusterMap, s) - Limbo(m)
    {
      IndexAgreement(m, c, s);
    }
  }

  lemma {:induction false} CountedIsRecorded(events: seq<Event>)
    ensures Run(INITIAL, events).maps.clusterMap == FoldCounted(events)
  {
    if events != [] {
      var init, e := events[..|events| - 1], events[|events| - 1];
      CountedIsRecorded(init);
      ReachableAgrees(INITIAL, init);
      var before := Run(INITIAL, init);
      match e
      case Tracked(c, k, u, d) =>
        if c in before.maps.clusterMap && before.maps.clusterMap[c] == k {
          assert before.maps.clusterMap[c := k] == before.maps.clusterMap;
        } else {
          TrackMapsAre(before, c, k, u, d);
          DetachKeepsAgreement(before.maps, c);
          hide Track, Agree, Detach, LastOfOld, Members;
        }
      case Stopped(c, u) => ForgetKeepsAgreement(before.maps, c);
      case Redeployed(_) =>
    }
  }

  // ---------- Convergence ----------

  /** The last thing observed of a cluster: None when it is gone or was never seen. */
  function LastSeen(events: seq<Event>, c: Cluster): Option<Shard> {
    if events == [] then None
    else
      match events[|events| - 1]
      case Tracked(x, k, _, _) => if x == c then Some(k) else LastSeen(events[..|events| - 1], c)
      case Stopped(x, _) => if x == c then None else LastSeen(events[..|events| - 1], c)
      case Redeployed(_) => LastSeen(events[..|events| - 1], c)
  }

  lemma {:induction false} FoldIsLastSeen(events: seq<Event>, c: Cluster)
    ensures LastSeen(events, c) == if c in Fold(events) then Some(Fold(events)[c]) else None
  {
    if events != [] {
      FoldIsLastSeen(events[..|events| - 1], c);
    }
  }

  /** Two runs that agree on what was last seen of each cluster end with the same cluster map, the
      same sets and the same deployments, however long they are and in whatever order. Two
      deployments are the same here when they mean the same: the order in which the configuration
      flags and the patches were met is not determined. */
  lemma Convergence(a: seq<Event>, b: seq<Event>, cfg: Config, patches: multiset<string>)
    requires FailureFree(a) && RenderedFrom(a, cfg, patches)
    requires FailureFree(b) && RenderedFrom(b, cfg, patches)
    requires forall c :: LastSeen(a, c) == LastSeen(b, c)
    ensures var x, y := Run(INITIAL, a), Run(INITIAL, b);
            && x.maps.clusterMap == y.maps.clusterMap
            && (forall s :: Members(x.maps, s) == Members(y.maps, s))
            && x.store.Keys == y.store.Keys
            && (forall k :: k in x.store ==> SameMeaning(x.store[k], y.store[k]))
  {
    Refinement(a, cfg, patches);
    Refinement(b, cfg, patches);
    SameFold(a, b);
    RefinedStatesAgree(Run(INITIAL, a), Run(INITIAL, b), Fold(a), cfg, patches);
  }

  lemma SameFold(a: seq<Event>, b: seq<Event>)
    requires forall c :: LastSeen(a, c) == LastSeen(b, c)
    ensures Fold(a) == Fold(b)
  {
    forall c
      ensures c in Fold(a) <==> c in Fold(b)
      ensures c in Fold(a) ==> Fold(a)[c] == Fold(b)[c]
    {
      FoldIsLastSeen(a, c);
      FoldIsLastSeen(b, c);
    }
  }

  lemma RefinedStatesAgree(x: State, y: State, spec: map<Cluster, Shard>, cfg: Config, patches: multiset<string>)
    requires Refines(x, spec, cfg, patches) && Refines(y, spec, cfg, patches)
    ensures x.maps.clusterMap == y.maps.clusterMap && x.store.Keys == y.store.Keys
    ensures forall s :: Members(x.maps, s) == Members(y.maps, s)
    ensures forall k :: k in x.store ==> SameMeaning(x.store[k], y.store[k])
  {
    hide SameMeaning, IsRendering;
    forall k: Key
      ensures k in x.store <==> k in y.store
      ensures k in x.store ==> SameMeaning(x.store[k], y.store[k])
    {
      assert HasAsWanted(x.store, spec, cfg, patches, k) && HasAsWanted(y.store, spec, cfg, patches, k);
      if k in x.store {
        RenderingsAgree(k.component, cfg, k.shard, patches, x.store[k], y.store[k]);
      }
    }
    assert forall s :: Members(x.maps, s) == Preimage(spec, s) == Members(y.maps, s);
  }

  // ---------- Alternation of deploys and undeploys ----------

  /** The calls made for one shard over a run. */
  function CallsFor(calls: seq<Call>, s: Shard): seq<Call> {
    if calls == [] then []
    else
      var init := CallsFor(calls[..|calls| - 1], s);
      if calls[|calls| - 1].shard == s then init + [calls[|calls| - 1]] else init
  }

  /** The deploys and undeploys that track and stop make. */
  function CallsOf(st: State, e: Event): seq<Call> {
    match e
    case Tracked(c, k, u, d) => Track(st, c, k, u, d).calls
    case Stopped(c, u) => Stop(st, c, u).calls
    case Redeployed(_) => []
  }

  function AllCalls(events: seq<Event>): seq<Call> {
    if events == [] then []
    else
      var init := events[..|events| - 1];
      AllCalls(init) + CallsOf(Run(INITIAL, init), events[|events| - 1])
  }

  lemma {:induction false} CallsForConcat(a: seq<Call>, b: seq<Call>, s: Shard)
    ensures CallsFor(a + b, s) == CallsFor(a, s) + CallsFor(b, s)
  {
    if b == [] {
      assert a + b == a;
    } else {
      CallsForConcat(a, b[..|b| - 1], s);
      assert (a + b)[..|a + b| - 1] == a + b[..|b| - 1];
    }
  }

  /** Deploys at the even positions, undeploys at the odd ones. */
  ghost predicate Alternate(calls: seq<Call>) {
    forall i :: 0 <= i < |calls| ==> (calls[i].DeployCall? <==> i % 2 == 0)
  }

  /** The calls for a shard whose set was or was not empty before and after: an undeploy when it
      becomes empty, a deploy when it stops being empty. */
  function CallsBetween(before: set<Cluster>, after: set<Cluster>, s: Shard): seq<Call> {
    if before == {} && after != {} then [DeployCall(s)]
    else if before != {} && after == {} then [UndeployCall(s)]
    else []
  }

  lemma TrackCalls(st: State, c: Cluster, k: Shard, u: UndeployRun, d: DeployRun, s: Shard)
    requires Agree(st.maps) && Limbo(st.maps) == {} && Track(st, c, k, u, d).ok
    ensures var o := Track(st, c, k, u, d);
            CallsFor(o.calls, s) == CallsBetween(Members(st.maps, s), Members(o.state.maps, s), s)
  {
    var m := st.maps;
    if !(c in m.clusterMap && m.clusterMap[c] == k) {
      TrackCallList(st, c, k, u, d);
      TrackMembers(st, c, k, u, d, s);
      assert c !in Members(m, k);
      hide Track, CallsFor, UndeployPart, DeployPart, Agree, Limbo;
      UndeployPartFor(m, c, s);
      DeployPartFor(m, k, s);
      CallsForConcat(UndeployPart(m, c), DeployPart(m, k), s);
      OthersStay(Members(m, s), c);
    }
  }

  function UndeployPart(m: Maps, c: Cluster): seq<Call> {
    if LastOfOld(m, c) then [UndeployCall(Recorded(m, c))] else []
  }

  function DeployPart(m: Maps, k: Shard): seq<Call> {
    if Members(m, k) == {} then [DeployCall(k)] else []
  }

  lemma UndeployPartFor(m: Maps, c: Cluster, s: Shard)
    requires Agree(m)
    ensures CallsFor(UndeployPart(m, c), s) == if Members(m, s) == {c} then [UndeployCall(s)] else []
  {
    CallsForOne(UndeployCall(Recorded(m, c)), s);
    assert Members(m, s) == {c} ==> c in Members(m, s);
  }

  lemma DeployPartFor(m: Maps, k: Shard, s: Shard)
    ensures CallsFor(DeployPart(m, k), s) == if s == k && Members(m, s) == {} then [DeployCall(s)] else []
  {
    CallsForOne(DeployCall(k), s);
  }

  lemma TrackCallList(st: State, c: Cluster, k: Shard, u: UndeployRun, d: DeployRun)
    requires Agree(st.maps) && !(c in st.maps.clusterMap && st.maps.clusterMap[c] == k) && Track(st, c, k, u, d).ok
    ensures Track(st, c, k, u, d).calls == UndeployPart(st.maps, c) + DeployPart(st.maps, k)
  {
    hide DeployTo, UndeployFrom, Attach;
    DetachKeepsAgreement(st.maps, c);
    assert c !in Members(st.maps, k);
    assert Members(Detach(st.maps, c), k) == Members(st.maps, k);
  }

  lemma TrackMembers(st: State, c: Cluster, k: Shard, u: UndeployRun, d: DeployRun, s: Shard)
    requires Agree(st.maps) && !(c in st.maps.clusterMap && st.maps.clusterMap[c] == k) && Track(st, c, k, u, d).ok
    ensures Members(Track(st, c, k, u, d).state.maps, s) ==
            if s == k then Members(st.maps, s) + {c} else Members(st.maps, s) - {c}
  {
    TrackMapsAre(st, c, k, u, d);
    hide Track;
    DetachKeepsAgreement(st.maps, c);
    AttachKeepsAgreement(Detach(st.maps, c), c, k);
  }

  lemma StopCalls(st: State, c: Cluster, u: UndeployRun, s: Shard)
    requires Agree(st.maps)
    ensures var o := Stop(st, c, u);
            CallsFor(o.calls, s) == CallsBetween(Members(st.maps, s), Members(o.state.maps, s), s)
  {
    ForgetKeepsAgreement(st.maps, c);
    CallsForOne(UndeployCall(Recorded(st.maps, c)), s);
    OthersStay(Members(st.maps, s), c);
  }

  lemma StepCalls(st: State, e: Event, s: Shard)
    requires Agree(st.maps) && Limbo(st.maps) == {} && Succeeds(st, e)
    ensures CallsFor(CallsOf(st, e), s) == CallsBetween(Members(st.maps, s), Members(Step(st, e).maps, s), s)
  {
    hide Track, Stop, Agree, Limbo;
    match e
    case Tracked(c, k, u, d) => TrackCalls(st, c, k, u, d, s);
    case Stopped(c, u) => StopCalls(st, c, u, s);
    case Redeployed(_) =>
  }

  /** Deploys minus undeploys. */
  function Balance(calls: seq<Call>): int {
    if calls == [] then 0
    else Balance(calls[..|calls| - 1]) + if calls[|calls| - 1].DeployCall? then 1 else -1
  }

  lemma {:induction false} AlternateBalance(calls: seq<Call>)
    requires Alternate(calls)
    ensures Balance(calls) == |calls| % 2
  {
    if calls != [] {
      AlternateBalance(calls[..|calls| - 1]);
    }
  }

  lemma AlternateNext(calls: seq<Call>, before: set<Cluster>, after: set<Cluster>, s: Shard)
    requires Alternate(calls) && |calls| % 2 == if before == {} then 0 else 1
    ensures var longer := calls + CallsBetween(before, after, s);
            Alternate(longer) && |longer| % 2 == if after == {} then 0 else 1
  {}

  lemma CallsForOne(call: Call, s: Shard)
    ensures CallsFor([call], s) == if call.shard == s then [call] else []
  {
    assert [call][..0] == [];
  }

  lemma {:induction false} AlternationParity(events: seq<Event>, s: Shard)
    requires FailureFree(events)
    ensures Alternate(CallsFor(AllCalls(events), s))
    ensures |CallsFor(AllCalls(events), s)| % 2 == if Members(Run(INITIAL, events).maps, s) == {} then 0 else 1
  {
    if events != [] {
      var init, e := events[..|events| - 1], events[|events| - 1];
      FailureFreeInit(events);
      AlternationParity(init, s);
      RefinedMaps(init);
      var before := Run(INITIAL, init);
      RefinedMapsAgree(before.maps, Fold(init));
      StepCalls(before, e, s);
      hide Step, CallsOf, Alternate, CallsBetween, FailureFree, MapsRefine, Agree, Limbo, Succeeds, Members;
      CallsForConcat(AllCalls(init), CallsOf(before, e), s);
      AlternateNext(CallsFor(AllCalls(init), s), Members(before.maps, s), Members(Step(before, e).maps, s), s);
    }
  }

  /** For each shard deploys and undeploys strictly alternate, starting with a deploy, and there
      is one deploy more than undeploys exactly while the shard has clusters. */
  lemma Alternation(events: seq<Event>, s: Shard)
    requires FailureFree(events)
    ensures Alternate(CallsFor(AllCalls(events), s))
    ensures Balance(CallsFor(AllCalls(events), s)) == if Members(Run(INITIAL, events).maps, s) == {} then 0 else 1
  {
    AlternationParity(events, s);
    AlternateBalance(CallsFor(AllCalls(events), s));
  }
}
