/** The controller itself: global maps whose values are mutable sets, and an API server whose
    every call may fail. Each method is proved against the function of the same purpose in
    Tracking and Deployments. */
module Controller {
  import opened ShardTypes
  import opened Arguments
  import opened Rendering
  import opened Deployments
  import opened Tracking
  import opened Patches
  import opened Histories

  /** A mutable set of cluster references. */
  class ClusterSet {
    var elems: set<Cluster>

    constructor ()
      ensures elems == {}
    {
      elems := {};
    }

    predicate Has(c: Cluster)
      reads this
    {
      c in elems
    }

    function Len(): nat
      reads this
    {
      |elems|
    }

    method Insert(c: Cluster)
      modifies this
      ensures elems == old(elems) + {c}
    {
      elems := elems + {c};
    }

    method Erase(c: Cluster)
      modifies this
      ensures elems == old(elems) - {c}
    {
      elems := elems - {c};
    }
  }

  // ---------- What the controller is answered ----------

  /** The answer to every question the controller asks, by the number of the question: what a call
      to the API server meets, and whether the patcher accepts what it is given. */
  type Oracle = nat -> Reply

  function RepliesFrom(replies: Oracle, n: nat): (r: seq<Reply>)
    ensures |r| == COMPONENT_COUNT
  {
    seq(COMPONENT_COUNT, i requires 0 <= i < COMPONENT_COUNT => replies(n + i))
  }

  /** None of the questions from n on and before m meets an error. */
  ghost predicate DoneBetween(replies: Oracle, n: nat, m: nat) {
    forall i :: n <= i < m ==> replies(i) == Done
  }

  /** Of the questions from n on and before m at most the last one meets an error: none is asked
      after an error. */
  ghost predicate ErrorEnds(replies: Oracle, n: nat, m: nat) {
    n <= m && forall i :: n <= i < m - 1 ==> replies(i) == Done
  }

  lemma DoneThrough(replies: Oracle, n: nat, m: nat, end: nat)
    requires n <= m && ErrorEnds(replies, m, end)
    ensures DoneBetween(replies, n, end) <==> DoneBetween(replies, n, m) && DoneBetween(replies, m, end)
    ensures n <= end && (DoneBetween(replies, n, m) ==> ErrorEnds(replies, n, end))
  {}

  /** What becomes of one component: with patches the patcher is asked first, and if it refuses
      nothing is applied. */
  function StepReply(replies: Oracle, n: nat, patched: bool): Reply {
    if !patched then replies(n) else if replies(n) == Done then replies(n + 1) else Refused
  }

  function StepEnd(replies: Oracle, n: nat, patched: bool): nat {
    if patched && replies(n) == Done then n + 2 else n + 1
  }

  /** The number of the first question about component i, if all before it went well. */
  function StepStart(n: nat, patched: bool, i: nat): nat {
    if patched then n + 2 * i else n + i
  }

  function StepReplies(replies: Oracle, n: nat, patched: bool): (r: seq<Reply>)
    ensures |r| == COMPONENT_COUNT
  {
    seq(COMPONENT_COUNT, i requires 0 <= i < COMPONENT_COUNT => StepReply(replies, StepStart(n, patched, i), patched))
  }

  /** The questions before the first component: the ConfigMap is read if one is configured. */
  function ConfigMapReads(source: PatchSource): nat {
    if source.NotConfigured? then 0 else 1
  }

  ghost predicate PatchesRead(replies: Oracle, source: PatchSource, n: nat) {
    source.NotConfigured? || (replies(n) == Done && Readable(source))
  }

  ghost predicate Patched(source: PatchSource) {
    PatchesIn(source) != multiset{}
  }

  /** The answers from question n on make this run of deployControllers for a shard that is not the
      default one: they say how far it gets and whether it succeeds. */
  ghost predicate DeployAnswered(d: DeployRun, replies: Oracle, source: PatchSource, n: nat) {
    if !PatchesRead(replies, source, n) then d == Deploy([], false)
    else
      var steps := StepReplies(replies, n + ConfigMapReads(source), Patched(source));
      |d.applied| == Took(steps, COMPONENT_COUNT) && d.ok == AllDone(steps, COMPONENT_COUNT)
  }

  /** The number of the question after such a run when it succeeds. */
  ghost function DeployEnd(source: PatchSource, n: nat): nat {
    StepStart(n + ConfigMapReads(source), Patched(source), COMPONENT_COUNT)
  }

  /** trackCluster asks about the undeploy, if there is one, before it asks about the deploy. */
  ghost function LeaveEnd(m: Maps, c: Cluster, n: nat): nat {
    if LastOfOld(m, c) && m.clusterMap[c] != DEFAULT_SHARD then n + COMPONENT_COUNT else n
  }

  /** The number of the first question about shard i of a redeploy that goes well. */
  ghost function PassStart(source: PatchSource, n: nat, i: nat): nat {
    if i == 0 then n else DeployEnd(source, PassStart(source, n, i - 1))
  }

  /** The event deploys a shard that is not the default one. */
  ghost predicate Deploys(st: State, e: Event) {
    match e
    case Tracked(c, k, u, d) => k != DEFAULT_SHARD && DeployCall(k) in Track(st, c, k, u, d).calls
    case Stopped(_, _) => false
    case Redeployed(p) => p.runs != []
  }

  /** The runs of the event are those that the answers from question n on make up. */
  ghost predicate Answered(st: State, e: Event, replies: Oracle, source: PatchSource, n: nat) {
    match e
    case Tracked(c, k, u, d) =>
      && u == UndeployOf(RepliesFrom(replies, n))
      && (Deploys(st, e) ==> DeployAnswered(d, replies, source, LeaveEnd(st.maps, c, n)))
    case Stopped(_, u) => u == UndeployOf(RepliesFrom(replies, n))
    case Redeployed(p) =>
      forall i :: 0 <= i < |p.runs| ==> DeployAnswered(p.runs[i], replies, source, PassStart(source, n, i))
  }

  datatype DeleteReply = Deleted | NotFound | Failed

  function DeleteReplyOf(reply: Reply, existed: bool): DeleteReply {
    if reply != Done then Failed else if existed then Deleted else NotFound
  }

  /** The deployments of the Sveltos namespace, by name. The ghost store lists those that carry a
      shard's name; others holds the rest, such as the default deployments. */
  class ApiServer {
    const replies: Oracle
    var asked: nat
    var objects: map<string, Content>
    var patchSource: PatchSource
    ghost var store: Store
    ghost const others: map<string, Content>

    ghost predicate Valid()
      reads this`objects, this`store
    {
      && objects == others + ByName(store)
      && forall k :: NameOf(k) !in others
    }

    constructor (replies: Oracle, patchSource: PatchSource)
      ensures Valid() && this.replies == replies && asked == 0 && this.patchSource == patchSource && store == map[]
    {
      this.replies, asked, this.patchSource := replies, 0, patchSource;
      objects, store, others := map[], map[], map[];
    }

    /** The answer to the next question. */
    method Answer() returns (reply: Reply)
      modifies this`asked
      ensures reply == replies(old(asked)) && asked == old(asked) + 1
    {
      reply := replies(asked);
      asked := asked + 1;
    }

    method Apply(content: Content, ghost k: Key) returns (reply: Reply)
      requires Valid() && content.manifest.name == NameOf(k)
      modifies this`asked, this`objects, this`store
      ensures Valid() && reply == replies(old(asked)) && asked == old(asked) + 1
      ensures store == if reply == Refused then old(store) else old(store)[k := content]
    {
      hide NameOf, ByName;
      reply := Answer();
      if reply != Refused {
        ApplyByName(objects, others, store, k, content);
        objects := objects[content.manifest.name := content];
        store := store[k := content];
      }
    }

    /** Deletes an object by its name. An error may come with or without the deletion. */
    method Delete(name: string, ghost k: Key) returns (reply: DeleteReply)
      requires Valid() && name == NameOf(k)
      modifies this`asked, this`objects, this`store
      ensures Valid() && asked == old(asked) + 1
      ensures reply == DeleteReplyOf(replies(old(asked)), k in old(store))
      ensures store == if replies(old(asked)) == Refused then old(store) else old(store) - {k}
    {
      hide NameOf, ByName;
      var outcome := Answer();
      if outcome == Refused {
        return Failed;
      }
      DeleteByName(objects, others, store, k);
      if name !in objects {
        store := store - {k};
        return if outcome == Done then NotFound else Failed;
      }
      objects := objects - {name};
      store := store - {k};
      return if outcome == Done then Deleted else Failed;
    }
  }

  lemma ApplyByName(objects: map<string, Content>, others: map<string, Content>, store: Store, k: Key, content: Content)
    requires objects == others + ByName(store) && NameOf(k) !in others
    ensures objects[NameOf(k) := content] == others + ByName(store[k := content])
  {
    ByNameApply(store, k, content);
    var names := ByName(store);
    assert (others + names)[NameOf(k) := content] == others + names[NameOf(k) := content];
  }

  lemma DeleteByName(objects: map<string, Content>, others: map<string, Content>, store: Store, k: Key)
    requires objects == others + ByName(store) && NameOf(k) !in others
    ensures objects - {NameOf(k)} == others + ByName(store - {k})
    ensures NameOf(k) in objects <==> k in store
  {
    ByNameDelete(store, k);
    ByNameHas(store, k);
    AddThenRemove(others, ByName(store), NameOf(k));
  }

  lemma AddThenRemove<K, V>(a: map<K, V>, b: map<K, V>, k: K)
    requires k !in a
    ensures (a + b) - {k} == a + (b - {k})
  {
    assert forall x :: x in (a + b) - {k} <==> x in a + (b - {k});
  }

  /** What the API server returns for a cluster. */
  datatype GetReply =
    | Found(deleting: bool, annotations: map<string, string>)
    | Missing
    | GetError

  class ShardController {
    const api: ApiServer
    const cfg: Config
    const shardAnnotation: string
    var clusterMap: map<Cluster, Shard>
    var shardMap: map<Shard, ClusterSet>
    ghost var calls: seq<Call>
    ghost var events: seq<Event>
    ghost const start: Store

    ghost function Sets(): set<ClusterSet>
      reads this`shardMap
    {
      shardMap.Values
    }

    /** No two shards share a set object. */
    ghost predicate Unaliased()
      reads this`shardMap
    {
      forall s, t :: s in shardMap && t in shardMap && s != t ==> shardMap[s] != shardMap[t]
    }

    ghost function Maps(): Tracking.Maps
      reads this`clusterMap, this`shardMap, Sets()
    {
      Tracking.Maps(clusterMap, map s | s in shardMap :: shardMap[s].elems)
    }

    ghost predicate Valid()
      reads this`clusterMap, this`shardMap, Sets(), api`objects, api`store
    {
      Unaliased() && Agree(Maps()) && api.Valid()
    }

    ghost function State(): Tracking.State
      reads this`clusterMap, this`shardMap, Sets(), api`store
    {
      Tracking.State(Maps(), api.store)
    }

    /** The controller is where the events recorded so far take it from the deployments it found
        when it started, and the recorded calls are theirs. */
    ghost predicate Traced()
      reads this`clusterMap, this`shardMap, this`calls, this`events, Sets(), api`store
    {
      && State() == Run(Tracking.State(INITIAL.maps, start), events)
      && (start == map[] ==> calls == AllCalls(events))
    }

    /** InitMaps. */
    constructor (api: ApiServer, cfg: Config, shardAnnotation: string)
      requires api.Valid()
      ensures Valid() && this.api == api && this.cfg == cfg && this.shardAnnotation == shardAnnotation
      ensures Maps() == INITIAL.maps && start == api.store && events == [] && Traced()
    {
      this.api, this.cfg, this.shardAnnotation := api, cfg, shardAnnotation;
      clusterMap, shardMap, calls, events := map[], map[], [], [];
      start := api.store;
      new;
      hide ApiServer.Valid;
      assert Maps() == INITIAL.maps;
    }

    // ---------- Deploying and undeploying one shard ----------

    /** getShardComponentsPatches: None stands for an error. */
    method GetShardComponentsPatches() returns (r: Option<seq<string>>)
      modifies api`asked
      ensures api.asked == old(api.asked) + ConfigMapReads(api.patchSource)
      ensures r.Some? <==> PatchesRead(api.replies, api.patchSource, old(api.asked))
      ensures r.Some? ==> multiset(r.value) == PatchesIn(api.patchSource)
    {
      if api.patchSource.NotConfigured? {
        return Some([]);
      }
      var reply := api.Answer();
      if reply != Done {
        return None;
      }
      if api.patchSource.NoConfigMap? {
        return Some([]);
      }
      r := GetPatchesFromConfigMap(api.patchSource.data);
    }

    /** One component: a content that it renders to takes effect unless the step is refused. */
    ghost predicate IsStep(c: Component, s: Shard, patches: multiset<string>, reply: Reply, applied: seq<Content>) {
      && |applied| == (if reply == Refused then 0 else 1)
      && (applied != [] ==> IsRendering(c, cfg, s, patches, applied[0]))
    }

    ghost function AfterStep(store: Store, c: Component, s: Shard, applied: seq<Content>): Store {
      if applied == [] then store else store[Key(c, s) := applied[0]]
    }

    lemma NothingRendered(s: Shard, patches: multiset<string>)
      ensures AllRendered(cfg, s, patches, [])
    {}

    /** deployDeployment. */
    method DeployDeployment(m: Manifest, s: Shard, patches: seq<string>, ghost c: Component, ghost order: seq<string>)
      returns (ok: bool, ghost applied: seq<Content>)
      requires api.Valid()
      requires IsOrder(order, ConfigFlags(c, cfg)) && m == Prepared(c, cfg, order)
      modifies api`asked, api`objects, api`store
      ensures api.Valid() && ok == (StepReply(api.replies, old(api.asked), patches != []) == Done)
      ensures api.asked == StepEnd(api.replies, old(api.asked), patches != [])
      ensures IsStep(c, s, multiset(patches), StepReply(api.replies, old(api.asked), patches != []), applied)
      ensures api.store == AfterStep(old(api.store), c, s, applied)
    {
      hide ApiServer.Valid;
      var content := Content(Instantiate(m, s), patches);
      InstantiatedName(c, s);
      if patches != [] {
        var patching := api.Answer();
        if patching != Done {
          return false, [];
        }
      }
      var reply := api.Apply(content, Key(c, s));
      ok := reply == Done;
      applied := if reply == Refused then [] else [content];
    }

    method DeployAddonController(s: Shard, patches: seq<string>) returns (ok: bool, ghost applied: seq<Content>)
      requires api.Valid()
      modifies api`asked, api`objects, api`store
      ensures api.Valid() && ok == (StepReply(api.replies, old(api.asked), patches != []) == Done)
      ensures api.asked == StepEnd(api.replies, old(api.asked), patches != [])
      ensures var reply := StepReply(api.replies, old(api.asked), patches != []);
              IsStep(AddonController, s, multiset(patches), reply, applied)
      ensures api.store == AfterStep(old(api.store), AddonController, s, applied)
    {
      var m := Template(AddonController);
      if cfg.agentInMgmtCluster {
        m := SetOptions(m);
      }
      var base := m;
      m := AddDriftDetectionConfig(base, cfg.driftDetectionConfig);
      ghost var order :| IsOrder(order, DriftFlags(cfg.driftDetectionConfig)) && m == base.(containers :=
          AppendTo(base.containers, "controller", Assignments(order, DriftFlags(cfg.driftDetectionConfig))));
      ok, applied := DeployDeployment(m, s, patches, AddonController, order);
    }

    method DeployClassifier(s: Shard, patches: seq<string>) returns (ok: bool, ghost applied: seq<Content>)
      requires api.Valid()
      modifies api`asked, api`objects, api`store
      ensures api.Valid() && ok == (StepReply(api.replies, old(api.asked), patches != []) == Done)
      ensures api.asked == StepEnd(api.replies, old(api.asked), patches != [])
      ensures var reply := StepReply(api.replies, old(api.asked), patches != []);
              IsStep(Classifier, s, multiset(patches), reply, applied)
      ensures api.store == AfterStep(old(api.store), Classifier, s, applied)
    {
      var m := Template(Classifier);
      if cfg.agentInMgmtCluster {
        m := SetOptions(m);
      }
      var base := m;
      m := AddClassifierConfigs(base, cfg.sveltosAgentConfig, cfg.sveltosApplierConfig);
      ghost var flags := ClassifierFlags(cfg.sveltosAgentConfig, cfg.sveltosApplierConfig);
      ghost var order :| IsOrder(order, flags) &&
        m == base.(containers := AppendTo(base.containers, "manager", Assignments(order, flags)));
      ok, applied := DeployDeployment(m, s, patches, Classifier, order);
    }

    method DeploySveltosClusterManager(s: Shard, patches: seq<string>) returns (ok: bool, ghost applied: seq<Content>)
      requires api.Valid()
      modifies api`asked, api`objects, api`store
      ensures api.Valid() && ok == (StepReply(api.replies, old(api.asked), patches != []) == Done)
      ensures api.asked == StepEnd(api.replies, old(api.asked), patches != [])
      ensures var reply := StepReply(api.replies, old(api.asked), patches != []);
              IsStep(SveltosClusterManager, s, multiset(patches), reply, applied)
      ensures api.store == AfterStep(old(api.store), SveltosClusterManager, s, applied)
    {
      var m := Template(SveltosClusterManager);
      AppendNothing(m, "manager");
      ok, applied := DeployDeployment(m, s, patches, SveltosClusterManager, []);
    }

    method DeployEventManager(s: Shard, patches: seq<string>) returns (ok: bool, ghost applied: seq<Content>)
      requires api.Valid()
      modifies api`asked, api`objects, api`store
      ensures api.Valid() && ok == (StepReply(api.replies, old(api.asked), patches != []) == Done)
      ensures api.asked == StepEnd(api.replies, old(api.asked), patches != [])
      ensures var reply := StepReply(api.replies, old(api.asked), patches != []);
              IsStep(EventManager, s, multiset(patches), reply, applied)
      ensures api.store == AfterStep(old(api.store), EventManager, s, applied)
    {
      var m := Template(EventManager);
      if cfg.agentInMgmtCluster {
        m := SetOptions(m);
      }
      AppendNothing(m, "manager");
      ok, applied := DeployDeployment(m, s, patches, EventManager, []);
    }

    method DeployHealthCheckManager(s: Shard, patches: seq<string>) returns (ok: bool, ghost applied: seq<Content>)
      requires api.Valid()
      modifies api`asked, api`objects, api`store
      ensures api.Valid() && ok == (StepReply(api.replies, old(api.asked), patches != []) == Done)
      ensures api.asked == StepEnd(api.replies, old(api.asked), patches != [])
      ensures var reply := StepReply(api.replies, old(api.asked), patches != []);
              IsStep(HealthCheckManager, s, multiset(patches), reply, applied)
      ensures api.store == AfterStep(old(api.store), HealthCheckManager, s, applied)
    {
      var m := Template(HealthCheckManager);
      if cfg.agentInMgmtCluster {
        m := SetOptions(m);
      }
      AppendNothing(m, "manager");
      ok, applied := DeployDeployment(m, s, patches, HealthCheckManager, []);
    }

    /** A run of deployControllers with everything done so far. */
    ghost predicate DeployGoing(
      base: Store, s: Shard, patches: seq<string>, d: DeployRun, i: nat, first: nat, store: Store, n: nat)
    {
      && !d.ok && |d.applied| == i && n == StepStart(first, patches != [], i) && DoneBetween(api.replies, first, n)
      && store == Applied(base, s, d.applied) && AllRendered(cfg, s, multiset(patches), d.applied)
    }

    /** A run of deployControllers that has come to its end. */
    ghost predicate DeployOver(
      base: Store, s: Shard, patches: seq<string>, d: DeployRun, ok: bool, first: nat, store: Store, n: nat)
    {
      var steps := StepReplies(api.replies, first, patches != []);
      && |d.applied| == Took(steps, COMPONENT_COUNT) && ok == d.ok == AllDone(steps, COMPONENT_COUNT)
      && ErrorEnds(api.replies, first, n) && (ok <==> DoneBetween(api.replies, first, n))
      && (ok ==> n == StepStart(first, patches != [], COMPONENT_COUNT))
      && store == Applied(base, s, d.applied) && AllRendered(cfg, s, multiset(patches), d.applied)
    }

    /** deployControllers. It succeeds exactly when the patches can be read and nothing it asks
        meets an error; otherwise it leaves what was applied before the first error. */
    method DeployControllers(s: Shard) returns (ok: bool, ghost d: DeployRun)
      requires api.Valid()
      modifies api`asked, api`objects, api`store
      ensures api.Valid() && ErrorEnds(api.replies, old(api.asked), api.asked)
      ensures ok == DeployOk(s, d) && api.store == DeployTo(old(api.store), s, d)
      ensures AllRendered(cfg, s, PatchesIn(api.patchSource), d.applied)
      ensures s != DEFAULT_SHARD ==> DeployAnswered(d, api.replies, api.patchSource, old(api.asked))
      ensures s != DEFAULT_SHARD && ok ==> api.asked == DeployEnd(api.patchSource, old(api.asked))
      ensures ok <==>
                (s == DEFAULT_SHARD || Readable(api.patchSource)) && DoneBetween(api.replies, old(api.asked), api.asked)
      ensures s == DEFAULT_SHARD ==> api.asked == old(api.asked)
    {
      hide ApiServer.Valid, AllRendered, Applied, DeployOver, Took, AllDone;
      d := Deploy([], false);
      NothingRendered(s, PatchesIn(api.patchSource));
      NothingApplied(api.store, s);
      if s == DEFAULT_SHARD {
        return true, d;
      }
      var patchReply := GetShardComponentsPatches();
      if patchReply.None? {
        return false, d;
      }
      ghost var base, first := api.store, api.asked;
      ok, d := DeployComponents(s, patchReply.value);
      DeployIsOver(base, s, patchReply.value, d, ok, first, api.store, api.asked);
    }

    lemma NothingApplied(store: Store, s: Shard)
      ensures Applied(store, s, []) == store
    {}

    lemma DeployIsOver(
        base: Store, s: Shard, patches: seq<string>, d: DeployRun, ok: bool, first: nat, store: Store, n: nat)
      requires DeployOver(base, s, patches, d, ok, first, store, n)
      ensures var steps := StepReplies(api.replies, first, patches != []);
              && |d.applied| == Took(steps, COMPONENT_COUNT) && ok == d.ok == AllDone(steps, COMPONENT_COUNT)
              && ErrorEnds(api.replies, first, n) && (ok <==> DoneBetween(api.replies, first, n))
              && (ok ==> n == StepStart(first, patches != [], COMPONENT_COUNT))
              && store == Applied(base, s, d.applied) && AllRendered(cfg, s, multiset(patches), d.applied)
    {}

    /** The five components, in their order. */
    method DeployComponents(s: Shard, patches: seq<string>) returns (ok: bool, ghost d: DeployRun)
      requires api.Valid()
      modifies api`asked, api`objects, api`store
      ensures api.Valid()
      ensures DeployOver(old(api.store), s, patches, d, ok, old(api.asked), api.store, api.asked)
    {
      hide ApiServer.Valid, IsStep, AfterStep, DeployGoing, DeployOver;
      d := Deploy([], false);
      ghost var base, first, before, n := api.store, api.asked, api.store, api.asked;
      ghost var step: seq<Content>;
      DeployBegins(base, s, patches, first);
      before, n := api.store, api.asked;
      ok, step := DeployAddonController(s, patches);
      d := Extend(base, before, api.store, s, patches, d, step, AddonController, first, n);
      if !ok {
        return;
      }
      before, n := api.store, api.asked;
      ok, step := DeployClassifier(s, patches);
      d := Extend(base, before, api.store, s, patches, d, step, Classifier, first, n);
      if !ok {
        return;
      }
      before, n := api.store, api.asked;
      ok, step := DeploySveltosClusterManager(s, patches);
      d := Extend(base, before, api.store, s, patches, d, step, SveltosClusterManager, first, n);
      if !ok {
        return;
      }
      before, n := api.store, api.asked;
      ok, step := DeployEventManager(s, patches);
      d := Extend(base, before, api.store, s, patches, d, step, EventManager, first, n);
      if !ok {
        return;
      }
      before, n := api.store, api.asked;
      ok, step := DeployHealthCheckManager(s, patches);
      d := Extend(base, before, api.store, s, patches, d, step, HealthCheckManager, first, n);
    }

    lemma DeployBegins(base: Store, s: Shard, patches: seq<string>, first: nat)
      ensures DeployGoing(base, s, patches, Deploy([], false), 0, first, base, first)
    {
      assert Applied(base, s, []) == base;
    }

    /** Adds the outcome of one component to the record of the run. */
    lemma Extend(base: Store, before: Store, after: Store, s: Shard, patches: seq<string>,
                 d: DeployRun, step: seq<Content>, c: Component, first: nat, n: nat)
      returns (longer: DeployRun)
      requires DeployGoing(base, s, patches, d, Rank(c), first, before, n)
      requires after == AfterStep(before, c, s, step)
      requires IsStep(c, s, multiset(patches), StepReply(api.replies, n, patches != []), step)
      ensures var end, ok := StepEnd(api.replies, n, patches != []), StepReply(api.replies, n, patches != []) == Done;
              if ok && c != HealthCheckManager
              then DeployGoing(base, s, patches, longer, Rank(c) + 1, first, after, end)
              else DeployOver(base, s, patches, longer, ok, first, after, end)
    {
      hide AllRendered, IsStep, AfterStep, Applied, StepReply, StepEnd;
      var reply := StepReply(api.replies, n, patches != []);
      ExtendContents(base, before, after, s, multiset(patches), d.applied, step, c, reply);
      ExtendReplies(api.replies, first, patches != [], Rank(c));
      longer := Deploy(d.applied + step, reply == Done && c == HealthCheckManager);
    }

    lemma ExtendContents(base: Store, before: Store, after: Store, s: Shard, patches: multiset<string>,
                         applied: seq<Content>, step: seq<Content>, c: Component, reply: Reply)
      requires |applied| == Rank(c) && AllRendered(cfg, s, patches, applied) && before == Applied(base, s, applied)
      requires after == AfterStep(before, c, s, step) && IsStep(c, s, patches, reply, step)
      ensures |applied + step| == (if reply == Refused then Rank(c) else Rank(c) + 1)
      ensures AllRendered(cfg, s, patches, applied + step) && after == Applied(base, s, applied + step)
    {
      hide IsRendering, Applied;
      if step != [] {
        ApplyNext(base, s, applied, step[0]);
        assert step == [step[0]] && At(Rank(c)) == c;
      } else {
        assert applied + step == applied;
      }
    }

    /** What the answers about component i mean for the run, when all went well before. */
    lemma ExtendReplies(replies: Oracle, first: nat, patched: bool, i: nat)
      requires i < COMPONENT_COUNT && DoneBetween(replies, first, StepStart(first, patched, i))
      ensures var n, steps := StepStart(first, patched, i), StepReplies(replies, first, patched);
              var end, reply := StepEnd(replies, n, patched), StepReply(replies, n, patched);
              && ErrorEnds(replies, first, end) && (reply == Done <==> DoneBetween(replies, first, end))
              && (reply == Done ==> end == StepStart(first, patched, i + 1))
              && (reply != Done ==>
                    !AllDone(steps, COMPONENT_COUNT) &&
                    Took(steps, COMPONENT_COUNT) == if reply == Lost then i + 1 else i)
              && (reply == Done && i + 1 == COMPONENT_COUNT ==> AllDone(steps, COMPONENT_COUNT))
    {
      hide Took, AllDone;
      var n, steps := StepStart(first, patched, i), StepReplies(replies, first, patched);
      assert forall j :: 0 <= j < i ==> steps[j] == Done;
      if StepReply(replies, n, patched) != Done {
        FirstError(steps, COMPONENT_COUNT, i);
      } else if i + 1 == COMPONENT_COUNT {
        NoError(steps, COMPONENT_COUNT);
      }
    }

    /** undeployDeployment: an object that is not there counts as deleted, so it succeeds exactly
        when the call does. */
    method UndeployDeployment(m: Manifest, s: Shard, ghost c: Component) returns (ok: bool)
      requires api.Valid() && m == Template(c)
      modifies api`asked, api`objects, api`store
      ensures api.Valid() && api.asked == old(api.asked) + 1
      ensures ok <==> api.replies(old(api.asked)) == Done
      ensures api.store ==
              if api.replies(old(api.asked)) == Refused then old(api.store) else old(api.store) - {Key(c, s)}
    {
      InstantiatedName(c, s);
      var reply := api.Delete(Instantiate(m, s).name, Key(c, s));
      ok := reply != Failed;
    }

    ghost predicate UndeployGoing(base: Store, s: Shard, i: nat, first: nat, store: Store, n: nat) {
      n == first + i && DoneBetween(api.replies, first, n) && store == Deployments.Deleted(base, s, i)
    }

    ghost predicate UndeployOver(base: Store, s: Shard, ok: bool, first: nat, store: Store, n: nat) {
      var replies := RepliesFrom(api.replies, first);
      && ok == AllDone(replies, COMPONENT_COUNT)
      && store == Deployments.Deleted(base, s, Took(replies, COMPONENT_COUNT))
      && n == first + Made(replies, COMPONENT_COUNT)
      && (ok <==> DoneBetween(api.replies, first, n)) && (ok ==> n == first + COMPONENT_COUNT)
      && ErrorEnds(api.replies, first, n)
    }

    /** undeployControllers. It succeeds exactly when no call meets an error; otherwise it leaves
        what was not deleted before the first error. */
    method UndeployControllers(s: Shard) returns (ok: bool)
      requires api.Valid()
      modifies api`asked, api`objects, api`store
      ensures api.Valid()
      ensures var u := UndeployOf(RepliesFrom(api.replies, old(api.asked)));
              ok == UndeployOk(s, u) && api.store == UndeployFrom(old(api.store), s, u)
      ensures api.asked == old(api.asked) +
                (if s == DEFAULT_SHARD then 0 else Made(RepliesFrom(api.replies, old(api.asked)), COMPONENT_COUNT))
      ensures ok <==> DoneBetween(api.replies, old(api.asked), api.asked)
      ensures ErrorEnds(api.replies, old(api.asked), api.asked)
      ensures ok && s != DEFAULT_SHARD ==> api.asked == old(api.asked) + COMPONENT_COUNT
    {
      hide ApiServer.Valid, Took, AllDone, Made;
      if s == DEFAULT_SHARD {
        return true;
      }
      ok := UndeployComponents(s);
    }

    /** The five components, in the order in which they are deployed. */
    method UndeployComponents(s: Shard) returns (ok: bool)
      requires api.Valid()
      modifies api`asked, api`objects, api`store
      ensures api.Valid() && UndeployOver(old(api.store), s, ok, old(api.asked), api.store, api.asked)
    {
      hide ApiServer.Valid, UndeployGoing, UndeployOver, Template;
      ghost var base, first, before, n := api.store, api.asked, api.store, api.asked;
      UndeployBegins(base, s, first);
      before, n := api.store, api.asked;
      ok := UndeployDeployment(Template(AddonController), s, AddonController);
      Shorten(base, before, api.store, s, AddonController, first, n);
      if !ok {
        return;
      }
      before, n := api.store, api.asked;
      ok := UndeployDeployment(Template(Classifier), s, Classifier);
      Shorten(base, before, api.store, s, Classifier, first, n);
      if !ok {
        return;
      }
      before, n := api.store, api.asked;
      ok := UndeployDeployment(Template(SveltosClusterManager), s, SveltosClusterManager);
      Shorten(base, before, api.store, s, SveltosClusterManager, first, n);
      if !ok {
        return;
      }
      before, n := api.store, api.asked;
      ok := UndeployDeployment(Template(EventManager), s, EventManager);
      Shorten(base, before, api.store, s, EventManager, first, n);
      if !ok {
        return;
      }
      before, n := api.store, api.asked;
      ok := UndeployDeployment(Template(HealthCheckManager), s, HealthCheckManager);
      Shorten(base, before, api.store, s, HealthCheckManager, first, n);
    }

    lemma UndeployBegins(base: Store, s: Shard, first: nat)
      ensures UndeployGoing(base, s, 0, first, base, first)
    {
      assert Deployments.Deleted(base, s, 0) == base;
    }

    /** What the deletion of one component adds to the run. */
    lemma Shorten(base: Store, before: Store, after: Store, s: Shard, c: Component, first: nat, n: nat)
      requires UndeployGoing(base, s, Rank(c), first, before, n)
      requires after == if api.replies(n) == Refused then before else before - {Key(c, s)}
      ensures if api.replies(n) == Done && c != HealthCheckManager
              then UndeployGoing(base, s, Rank(c) + 1, first, after, n + 1)
              else UndeployOver(base, s, api.replies(n) == Done, first, after, n + 1)
    {
      hide Took, AllDone, Made, Deployments.Deleted;
      var i, replies := Rank(c), RepliesFrom(api.replies, first);
      DeleteNext(base, s, i);
      assert At(i) == c;
      assert forall j :: 0 <= j < i ==> replies[j] == Done;
      if api.replies(n) != Done {
        FirstError(replies, COMPONENT_COUNT, i);
      } else if c == HealthCheckManager {
        NoError(replies, COMPONENT_COUNT);
      }
    }

    // ---------- Reconciling one cluster ----------

    /** trackCluster, from the lock to the return. It succeeds exactly when nothing it asks meets an
        error and the patches can be read if it deploys. */
    method TrackCluster(c: Cluster, k: Shard) returns (ok: bool, ghost u: UndeployRun, ghost d: DeployRun)
      requires Valid()
      modifies this`clusterMap, this`shardMap, this`calls, Sets(), api`asked, api`objects, api`store
      ensures Valid() && ErrorEnds(api.replies, old(api.asked), api.asked)
      ensures forall x :: x in Sets() ==> x in old(Sets()) || fresh(x)
      ensures var expected := Track(old(State()), c, k, u, d);
              State() == expected.state && ok == expected.ok && calls == old(calls) + expected.calls
      ensures AllRendered(cfg, k, PatchesIn(api.patchSource), d.applied)
      ensures Answered(old(State()), Tracked(c, k, u, d), api.replies, api.patchSource, old(api.asked))
      ensures ok <==>
                && DoneBetween(api.replies, old(api.asked), api.asked)
                && (Deploys(old(State()), Tracked(c, k, u, d)) ==> Readable(api.patchSource))
    {
      hide ApiServer.Valid, Unaliased, Maps, Agree, Leave, Arrive, AllRendered, DeployAnswered, UndeployOf;
      u, d := UndeployOf(RepliesFrom(api.replies, api.asked)), Deploy([], false);
      NothingRendered(k, PatchesIn(api.patchSource));
      assert Maps().clusterMap == clusterMap by {
        MapsShown();
      }
      if c in clusterMap && clusterMap[c] == k {
        return true, u, d;
      }
      LeaveKeepsAgreement(State(), c);
      LeaveMakesNoDeploy(State(), c, u, k);
      ok := LeaveOldShard(c);
      if !ok {
        return;
      }
      ArriveKeepsAgreement(State(), c, k);
      ArriveMakesDeploys(State(), c, k);
      ok, d := JoinShard(c, k);
    }

    lemma LeaveMakesNoDeploy(st: Tracking.State, c: Cluster, u: UndeployRun, k: Shard)
      ensures DeployCall(k) !in Leave(st, c, u).calls
    {}

    lemma ArriveMakesDeploys(st: Tracking.State, c: Cluster, k: Shard)
      ensures forall d :: Arrive(st, c, k, d).calls != [] ==> DeployCall(k) in Arrive(st, c, k, d).calls
    {}

    /** The part of trackCluster that deals with the shard the cluster was last seen in. */
    method LeaveOldShard(c: Cluster) returns (ok: bool)
      requires Unaliased() && Agree(Maps()) && api.Valid()
      modifies this`calls, Sets(), api`asked, api`objects, api`store
      ensures Unaliased() && api.Valid() && ErrorEnds(api.replies, old(api.asked), api.asked)
      ensures var expected := Leave(old(State()), c, UndeployOf(RepliesFrom(api.replies, old(api.asked))));
              State() == expected.state && ok == expected.ok && calls == old(calls) + expected.calls
      ensures ok <==> DoneBetween(api.replies, old(api.asked), api.asked)
      ensures ok ==> api.asked == LeaveEnd(old(Maps()), c, old(api.asked))
    {
      hide ApiServer.Valid, Maps, Agree, UndeployFrom, UndeployOf;
      ghost var m := Maps();
      MapsShown();
      DetachUntracked(m, c);
      if c in clusterMap {
        RecordedHasSet(c);
        var oldShard := clusterMap[c];
        var oldClusterPerShard := shardMap[oldShard];
        SetShown(oldShard);
        OnlyMember(oldClusterPerShard.elems, c);
        if oldClusterPerShard.Has(c) && oldClusterPerShard.Len() == 1 {
          calls := calls + [UndeployCall(oldShard)];
          ok := UndeployControllers(oldShard);
          if !ok {
            return;
          }
        }
        EraseMembership(c);
      }
      ok := true;
    }

    method EraseMembership(c: Cluster)
      requires Unaliased() && c in clusterMap && clusterMap[c] in shardMap
      modifies Sets()
      ensures Maps() == Detach(old(Maps()), c)
    {
      shardMap[clusterMap[c]].Erase(c);
    }

    /** The part of trackCluster that deals with the shard the cluster is in now. */
    method JoinShard(c: Cluster, k: Shard) returns (ok: bool, ghost d: DeployRun)
      requires Unaliased() && api.Valid()
      modifies this`clusterMap, this`shardMap, this`calls, Sets(), api`asked, api`objects, api`store
      ensures Unaliased() && api.Valid() && ErrorEnds(api.replies, old(api.asked), api.asked)
      ensures forall x :: x in Sets() ==> x in old(Sets()) || fresh(x)
      ensures var expected := Arrive(old(State()), c, k, d);
              && State() == expected.state && ok == expected.ok && calls == old(calls) + expected.calls
              && (expected.calls != [] && k != DEFAULT_SHARD ==>
                    DeployAnswered(d, api.replies, api.patchSource, old(api.asked)))
              && (ok <==>
                    && DoneBetween(api.replies, old(api.asked), api.asked)
                    && (expected.calls != [] && k != DEFAULT_SHARD ==> Readable(api.patchSource)))
      ensures AllRendered(cfg, k, PatchesIn(api.patchSource), d.applied)
    {
      hide ApiServer.Valid, Unaliased, Maps, Attach, DeployTo, AllRendered, DeployAnswered, Readable;
      d := Deploy([], false);
      NothingRendered(k, PatchesIn(api.patchSource));
      SetShown(k);
      if k !in shardMap || shardMap[k].Len() == 0 {
        calls := calls + [DeployCall(k)];
        ok, d := DeployControllers(k);
        if !ok {
          return;
        }
      }
      RecordMembership(c, k);
      ok := true;
    }

    method RecordMembership(c: Cluster, k: Shard)
      requires Unaliased()
      modifies this`clusterMap, this`shardMap, Sets()
      ensures Unaliased() && Maps() == Attach(old(Maps()), c, k)
      ensures forall x :: x in Sets() ==> x in old(Sets()) || fresh(x)
    {
      ghost var before := Maps();
      var clusterPerShard: ClusterSet;
      if k !in shardMap {
        clusterPerShard := new ClusterSet();
      } else {
        clusterPerShard := shardMap[k];
      }
      clusterPerShard.Insert(c);
      shardMap := shardMap[k := clusterPerShard];
      clusterMap := clusterMap[c := k];
      AttachShown(before, Maps(), c, k);
    }

    lemma AttachShown(before: Tracking.Maps, after: Tracking.Maps, c: Cluster, k: Shard)
      requires after.clusterMap == before.clusterMap[c := k]
      requires forall s :: s in after.shardMap <==> s in before.shardMap || s == k
      requires forall s :: s in before.shardMap && s != k ==> after.shardMap[s] == before.shardMap[s]
      requires after.shardMap[k] == Members(before, k) + {c}
      ensures after == Attach(before, c, k)
    {}

    lemma MapsShown()
      ensures Maps().clusterMap == clusterMap
    {}

    /** A set as the abstract maps show it. */
    lemma SetShown(s: Shard)
      ensures Members(Maps(), s) == if s in shardMap then shardMap[s].elems else {}
    {}

    lemma DetachUntracked(m: Tracking.Maps, c: Cluster)
      ensures c !in m.clusterMap ==> Detach(m, c) == m
    {}

    /** Why the guards against a missing set never fire. */
    lemma RecordedHasSet(c: Cluster)
      requires Agree(Maps()) && c in clusterMap
      ensures clusterMap[c] in shardMap
    {}

    lemma OnlyMember(members: set<Cluster>, c: Cluster)
      ensures c in members && |members| == 1 <==> members == {c}
    {
      if c in members && |members| == 1 {
        assert |members - {c}| == 0;
      }
    }

    /** stopTrackingCluster. */
    method StopTrackingCluster(c: Cluster) returns (ok: bool, ghost u: UndeployRun)
      requires Valid()
      modifies this`clusterMap, this`calls, Sets(), api`asked, api`objects, api`store
      ensures Valid() && Sets() == old(Sets()) && ErrorEnds(api.replies, old(api.asked), api.asked)
      ensures var expected := Stop(old(State()), c, u);
              State() == expected.state && ok == expected.ok && calls == old(calls) + expected.calls
      ensures u == UndeployOf(RepliesFrom(api.replies, old(api.asked)))
      ensures ok <==> DoneBetween(api.replies, old(api.asked), api.asked)
    {
      hide ApiServer.Valid, Unaliased, Maps, Agree, Forget, Members, Recorded, UndeployFrom, UndeployOf;
      u := UndeployOf(RepliesFrom(api.replies, api.asked));
      ForgetKeepsAgreement(Maps(), c);
      var oldShardKey, emptied := EraseEverywhere(c);
      ok := true;
      if emptied {
        calls := calls + [UndeployCall(oldShardKey)];
        ok := UndeployControllers(oldShardKey);
      }
    }

    /** The part of stopTrackingCluster that updates the maps, and whether it emptied the set. */
    method EraseEverywhere(c: Cluster) returns (oldShardKey: Shard, emptied: bool)
      requires Unaliased()
      modifies this`clusterMap, Sets()
      ensures Maps() == Forget(old(Maps()), c) && oldShardKey == Recorded(old(Maps()), c)
      ensures emptied <==> c in Members(old(Maps()), oldShardKey) && Members(Maps(), oldShardKey) == {}
    {
      oldShardKey := if c in clusterMap then clusterMap[c] else DEFAULT_SHARD;
      clusterMap := clusterMap - {c};
      emptied := false;
      if oldShardKey in shardMap && shardMap[oldShardKey].Has(c) {
        shardMap[oldShardKey].Erase(c);
        emptied := shardMap[oldShardKey].Len() == 0;
      }
    }

    /** What a reconcile of a cluster is to do, given what the API server returns for it. */
    ghost predicate Handles(e: Event, ref: Cluster, got: GetReply) {
      match got
      case GetError => false
      case Missing => e.Stopped? && e.cluster == ref
      case Found(true, _) => e.Stopped? && e.cluster == ref
      case Found(false, annotations) =>
        && e.Tracked? && e.cluster == ref
        && e.shard == if shardAnnotation in annotations then annotations[shardAnnotation] else DEFAULT_SHARD
    }

    /** processCluster: ref names the requested cluster in every branch. A failed read changes
        nothing; any other reconcile is one event of the tracker. */
    method ProcessCluster(ref: Cluster, got: GetReply) returns (ok: bool, ghost e: Event)
      requires Valid() && Traced()
      modifies this`clusterMap, this`shardMap, this`calls, this`events, Sets(), api`asked, api`objects, api`store
      ensures Valid() && Traced() && ErrorEnds(api.replies, old(api.asked), api.asked)
      ensures got.GetError? ==> !ok && State() == old(State()) && calls == old(calls) && events == old(events)
      ensures !got.GetError? ==>
                && Handles(e, ref, got) && events == old(events) + [e]
                && State() == Step(old(State()), e) && calls == old(calls) + CallsOf(old(State()), e)
                && (ok <==> Succeeds(old(State()), e)) && Rendered(e, cfg, PatchesIn(api.patchSource))
                && Answered(old(State()), e, api.replies, api.patchSource, old(api.asked))
                && (ok <==>
                      && DoneBetween(api.replies, old(api.asked), api.asked)
                      && (Deploys(old(State()), e) ==> Readable(api.patchSource)))
      ensures (ok || got.GetError?) && start == map[] && FailureFree(old(events)) ==> FailureFree(events)
    {
      hide Valid, Maps, Step, CallsOf, Succeeds, Rendered, Run, AllCalls, FailureFree, Answered, Deploys, Readable;
      ok, e := Reconcile(ref, got);
      if !got.GetError? {
        RunNext(Tracking.State(INITIAL.maps, start), events, e);
        if ok && start == map[] && FailureFree(events) {
          FailureFreeNext(events, e);
        }
        AddEvent(e);
      }
    }

    twostate lemma MapsUnchanged()
      requires unchanged(this`clusterMap) && unchanged(this`shardMap) && forall x :: x in old(Sets()) ==> unchanged(x)
      ensures Maps() == old(Maps())
    {}

    ghost method AddEvent(e: Event)
      requires Valid()
      modifies this`events
      ensures Valid() && State() == old(State()) && events == old(events) + [e]
    {
      hide ApiServer.Valid, Maps, Agree, Unaliased;
      events := events + [e];
      MapsUnchanged();
    }

    /** The branches of processCluster. */
    method Reconcile(ref: Cluster, got: GetReply) returns (ok: bool, ghost e: Event)
      requires Valid()
      modifies this`clusterMap, this`shardMap, this`calls, Sets(), api`asked, api`objects, api`store
      ensures Valid() && ErrorEnds(api.replies, old(api.asked), api.asked)
      ensures got.GetError? ==> !ok && State() == old(State()) && calls == old(calls)
      ensures !got.GetError? ==>
                && Handles(e, ref, got)
                && State() == Step(old(State()), e) && calls == old(calls) + CallsOf(old(State()), e)
                && (ok <==> Succeeds(old(State()), e)) && Rendered(e, cfg, PatchesIn(api.patchSource))
                && Answered(old(State()), e, api.replies, api.patchSource, old(api.asked))
                && (ok <==>
                      && DoneBetween(api.replies, old(api.asked), api.asked)
                      && (Deploys(old(State()), e) ==> Readable(api.patchSource)))
    {
      hide Valid, State, AllRendered, Track, Stop;
      ghost var u: UndeployRun, d: DeployRun := Undeploy(0, false), Deploy([], false);
      e := Stopped(ref, u);
      match got {
        case GetError =>
          ok := false;
        case Missing =>
          ok, u := StopTrackingCluster(ref);
          e := Stopped(ref, u);
        case Found(deleting, annotations) =>
          if deleting {
            ok, u := StopTrackingCluster(ref);
            e := Stopped(ref, u);
            return;
          }
          var currentShard := DEFAULT_SHARD;
          if annotations != map[] {
            currentShard := if shardAnnotation in annotations then annotations[shardAnnotation] else DEFAULT_SHARD;
          }
          ok, u, d := TrackCluster(ref, currentShard);
          e := Tracked(ref, currentShard, u, d);
      }
    }

    lemma RunNext(st: Tracking.State, events: seq<Event>, e: Event)
      ensures Run(st, events + [e]) == Step(Run(st, events), e)
      ensures AllCalls(events + [e]) == AllCalls(events) + CallsOf(Run(INITIAL, events), e)
    {
      hide Step, CallsOf;
      assert (events + [e])[..|events|] == events;
    }

    /** A controller that started on an empty cluster and has not seen a failure since: the maps
        and the deployments are those the observed shards ask for, and the deploys and undeploys
        of each shard alternate. */
    lemma FailureFreeRunServes(patches: multiset<string>)
      requires Traced() && start == map[]
      requires FailureFree(events) && RenderedFrom(events, cfg, patches)
      ensures Refines(State(), Fold(events), cfg, patches)
      ensures forall s :: Alternate(CallsFor(calls, s))
    {
      Refinement(events, cfg, patches);
      forall s
        ensures Alternate(CallsFor(calls, s))
      {
        Alternation(events, s);
      }
    }

    // ---------- Redeploying ----------

    /** The snapshot of redeployAllShards, in the order the map yields its keys. */
    method ActiveShards() returns (activeShards: seq<Shard>)
      requires Valid()
      ensures IsSnapshot(activeShards, Maps())
    {
      activeShards := [];
      var pending := shardMap.Keys;
      while pending != {}
        invariant pending <= shardMap.Keys
        invariant forall s :: s in activeShards <==>
                    s in shardMap && s !in pending && s != DEFAULT_SHARD && shardMap[s].elems != {}
        invariant forall i, j :: 0 <= i < j < |activeShards| ==> activeShards[i] != activeShards[j]
        decreases |pending|
      {
        var s :| s in pending;
        pending := pending - {s};
        if s != DEFAULT_SHARD && shardMap[s].Len() > 0 {
          activeShards := activeShards + [s];
        }
      }
    }

    /** The contents that exist for a shard are rendered from the current patches. */
    ghost predicate Fresh(store: Store, s: Shard, patches: multiset<string>) {
      forall c :: Key(c, s) in store && IsRendering(c, cfg, s, patches, store[Key(c, s)])
    }

    /** redeployAllShards, running alone: one event of the tracker, over a snapshot taken at its
        start, which stops at the first failure. */
    method RedeployAllShards() returns (ok: bool, ghost pass: RedeployPass)
      requires Valid() && Traced()
      modifies this`events, api`asked, api`objects, api`store
      ensures Valid() && Traced() && Maps() == old(Maps()) && events == old(events) + [Redeployed(pass)]
      ensures IsSnapshot(pass.shards, Maps()) && StopsAtFailure(pass.runs)
      ensures State() == Step(old(State()), Redeployed(pass))
      ensures ok <==> Succeeds(old(State()), Redeployed(pass))
      ensures Rendered(Redeployed(pass), cfg, PatchesIn(api.patchSource))
      ensures Answered(old(State()), Redeployed(pass), api.replies, api.patchSource, old(api.asked))
      ensures ErrorEnds(api.replies, old(api.asked), api.asked)
      ensures ok <==>
                DoneBetween(api.replies, old(api.asked), api.asked) && (pass.runs != [] ==> Readable(api.patchSource))
      ensures !ok ==> pass.runs != [] && !pass.runs[|pass.runs| - 1].ok
      ensures ok && start == map[] && FailureFree(old(events)) ==> FailureFree(events)
    {
      hide ApiServer.Valid, Unaliased, Agree, AllRendered, RedeployList, AllCalls, FailureFree, DeployAnswered;
      var activeShards := ActiveShards();
      ok, pass := RedeployInOrder(activeShards);
      MapsUnchanged();
      RunNext(Tracking.State(INITIAL.maps, start), events, Redeployed(pass));
      if ok && start == map[] && FailureFree(events) {
        FailureFreeNext(events, Redeployed(pass));
      }
      AddEvent(Redeployed(pass));
    }

    /** Each run of the pass is rendered from the patches, and what the answers from n on make up. */
    ghost predicate PassSound(shards: seq<Shard>, runs: seq<DeployRun>, source: PatchSource, n: nat) {
      |runs| <= |shards| && forall i :: 0 <= i < |runs| ==>
        && AllRendered(cfg, shards[i], PatchesIn(source), runs[i].applied)
        && DeployAnswered(runs[i], api.replies, source, PassStart(source, n, i))
    }

    lemma PassGrows(shards: seq<Shard>, runs: seq<DeployRun>, d: DeployRun, source: PatchSource, n: nat)
      requires PassSound(shards, runs, source, n) && |runs| < |shards|
      requires AllRendered(cfg, shards[|runs|], PatchesIn(source), d.applied)
      requires DeployAnswered(d, api.replies, source, PassStart(source, n, |runs|))
      ensures PassSound(shards, runs + [d], source, n)
    {
      hide AllRendered, DeployAnswered, PassStart;
    }

    /** The loop of redeployAllShards over its snapshot. */
    method RedeployInOrder(activeShards: seq<Shard>) returns (ok: bool, ghost pass: RedeployPass)
      requires api.Valid() && DEFAULT_SHARD !in activeShards
      modifies api`asked, api`objects, api`store
      ensures api.Valid() && pass.shards == activeShards && StopsAtFailure(pass.runs)
      ensures api.store == RedeployList(old(api.store), pass.shards, pass.runs)
      ensures PassSound(pass.shards, pass.runs, api.patchSource, old(api.asked))
      ensures ErrorEnds(api.replies, old(api.asked), api.asked)
      ensures ok <==>
                DoneBetween(api.replies, old(api.asked), api.asked) && (pass.runs != [] ==> Readable(api.patchSource))
      ensures ok ==> |pass.runs| == |pass.shards| && AllOk(pass.runs)
      ensures !ok ==> pass.runs != [] && !pass.runs[|pass.runs| - 1].ok
    {
      hide ApiServer.Valid, AllRendered, DeployTo, RedeployList, DeployAnswered, DeployEnd, Readable, DoneBetween;
      hide PassSound, ErrorEnds;
      ghost var source, n := api.patchSource, api.asked;
      ghost var runs: seq<DeployRun> := [];
      NothingRedeployed(api.store, activeShards);
      PassBegins(activeShards, source, n);
      for i := 0 to |activeShards|
        invariant api.Valid() && |runs| == i && forall j :: 0 <= j < i ==> runs[j].ok
        invariant api.store == RedeployList(old(api.store), activeShards, runs)
        invariant PassSound(activeShards, runs, source, n)
        invariant api.asked == PassStart(source, n, i) && ErrorEnds(api.replies, n, api.asked)
        invariant n <= api.asked && DoneBetween(api.replies, n, api.asked) && (i > 0 ==> Readable(source))
      {
        assert activeShards[i] in activeShards;
        ghost var d: DeployRun, m := Deploy([], false), api.asked;
        ok, d := DeployControllers(activeShards[i]);
        DoneThrough(api.replies, n, m, api.asked);
        RedeployNext(old(api.store), activeShards, runs, d);
        PassGrows(activeShards, runs, d, source, n);
        runs := runs + [d];
        if !ok {
          return false, Pass(activeShards, runs);
        }
      }
      return true, Pass(activeShards, runs);
    }

    lemma PassBegins(shards: seq<Shard>, source: PatchSource, n: nat)
      ensures PassSound(shards, [], source, n) && PassStart(source, n, 0) == n
      ensures DoneBetween(api.replies, n, n) && ErrorEnds(api.replies, n, n)
    {}

    lemma NothingRedeployed(store: Store, shards: seq<Shard>)
      ensures RedeployList(store, shards, []) == store
    {}

    lemma RedeployNext(store: Store, shards: seq<Shard>, runs: seq<DeployRun>, d: DeployRun)
      requires |runs| < |shards|
      ensures RedeployList(store, shards, runs + [d]) == DeployTo(RedeployList(store, shards, runs), shards[|runs|], d)
    {
      hide DeployTo;
      assert (runs + [d])[..|runs|] == runs;
    }

    /** What a redeploy that reports success has achieved: every active shard has all five
        components, freshly rendered, and no other deployment has changed. */
    lemma SuccessfulRedeploy(before: Tracking.State, pass: RedeployPass, patches: multiset<string>)
      requires Succeeds(before, Redeployed(pass)) && Rendered(Redeployed(pass), cfg, patches)
      ensures var after := Step(before, Redeployed(pass));
              && (forall s :: s != DEFAULT_SHARD && Members(after.maps, s) != {} ==> Fresh(after.store, s, patches))
              && (forall k: Key :: k.shard == DEFAULT_SHARD || Members(after.maps, k.shard) == {} ==>
                    (k in after.store <==> k in before.store) &&
                    (k in after.store ==> after.store[k] == before.store[k]))
    {
      hide IsRendering;
      var m, after := before.maps, Step(before, Redeployed(pass)).store;
      forall s, c | s != DEFAULT_SHARD && Members(m, s) != {}
        ensures Key(c, s) in after && IsRendering(c, cfg, s, patches, after[Key(c, s)])
      {
        assert s in pass.shards;
        var i :| 0 <= i < |pass.shards| && pass.shards[i] == s;
        RedeployAccount(before.store, pass.shards, pass.runs, Key(c, s));
        assert At(Rank(c)) == c;
      }
      forall k: Key | k.shard == DEFAULT_SHARD || Members(m, k.shard) == {}
        ensures (k in after <==> k in before.store) && (k in after ==> after[k] == before.store[k])
      {
        RedeployAccount(before.store, pass.shards, pass.runs, k);
        assert pass.shards[..|pass.runs|] == pass.shards;
      }
    }
  }
}
