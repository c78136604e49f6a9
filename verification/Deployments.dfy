/** The deployments present in the cluster, and what a run of deployControllers or
    undeployControllers does to them. */
module Deployments {
  import opened ShardTypes
  import opened Rendering

  type Store = map<Key, Content>

  /** One run of deployControllers: the contents that took effect, in component order, and
      whether the run reported success. A run that fails leaves a prefix; the call that failed
      may or may not have taken effect. */
  datatype RawDeploy = Deploy(applied: seq<Content>, ok: bool)

  type DeployRun = d: RawDeploy |
      |d.applied| <= COMPONENT_COUNT && (d.ok ==> |d.applied| == COMPONENT_COUNT)
    witness Deploy([], false)

  /** One run of undeployControllers: how many deletions took effect, in component order. */
  datatype RawUndeploy = Undeploy(deleted: nat, ok: bool)

  type UndeployRun = u: RawUndeploy |
      u.deleted <= COMPONENT_COUNT && (u.ok ==> u.deleted == COMPONENT_COUNT)
    witness Undeploy(0, false)

  // ---------- What the replies to a run's calls make of it ----------

  /** How many calls take effect when up to n calls are made and the first error ends them. */
  function Took(replies: seq<Reply>, n: nat): (r: nat)
    ensures r <= n && r <= |replies|
  {
    if replies == [] || n == 0 || replies[0] == Refused then 0
    else if replies[0] == Lost then 1
    else 1 + Took(replies[1..], n - 1)
  }

  /** How many calls are made then. */
  function Made(replies: seq<Reply>, n: nat): (r: nat)
    ensures Took(replies, n) <= r <= n && r <= |replies|
  {
    if replies == [] || n == 0 then 0
    else if replies[0] != Done then 1
    else 1 + Made(replies[1..], n - 1)
  }

  predicate AllDone(replies: seq<Reply>, n: nat)
    ensures AllDone(replies, n) ==> Took(replies, n) == n
  {
    n == 0 || (replies != [] && replies[0] == Done && AllDone(replies[1..], n - 1))
  }

  function UndeployOf(replies: seq<Reply>): UndeployRun {
    Undeploy(Took(replies, COMPONENT_COUNT), AllDone(replies, COMPONENT_COUNT))
  }

  datatype Answer = Answer(reply: Reply, content: Content)

  function Replies(answers: seq<Answer>): (r: seq<Reply>)
    ensures |r| == |answers|
  {
    seq(|answers|, i requires 0 <= i < |answers| => answers[i].reply)
  }

  function Contents(answers: seq<Answer>): (r: seq<Content>)
    ensures |r| == |answers|
  {
    seq(|answers|, i requires 0 <= i < |answers| => answers[i].content)
  }

  /** The contents of the calls that take effect. */
  function TookEffect(answers: seq<Answer>, n: nat): (r: seq<Content>)
    ensures |r| == Took(Replies(answers), n)
  {
    Contents(answers)[..Took(Replies(answers), n)]
  }

  function DeployOf(answers: seq<Answer>): (d: DeployRun)
    ensures d.ok ==> COMPONENT_COUNT <= |answers|
  {
    Deploy(TookEffect(answers, COMPONENT_COUNT), AllDone(Replies(answers), COMPONENT_COUNT))
  }

  lemma {:induction false} FirstError(replies: seq<Reply>, n: nat, i: nat)
    requires i < n <= |replies| && (forall j :: 0 <= j < i ==> replies[j] == Done) && replies[i] != Done
    ensures !AllDone(replies, n) && Made(replies, n) == i + 1
    ensures Took(replies, n) == if replies[i] == Lost then i + 1 else i
  {
    if i > 0 {
      FirstError(replies[1..], n - 1, i - 1);
    }
  }

  lemma {:induction false} NoError(replies: seq<Reply>, n: nat)
    requires n <= |replies| && forall j :: 0 <= j < n ==> replies[j] == Done
    ensures AllDone(replies, n) && Made(replies, n) == n
  {
    if n > 0 {
      NoError(replies[1..], n - 1);
    }
  }

  // ---------- The store after a run ----------

  /** The first n deployments of a shard. */
  function FirstKeys(s: Shard, n: nat): set<Key> {
    set k | k in KeysOf(s) && Rank(k.component) < n
  }

  function Applied(store: Store, s: Shard, contents: seq<Content>): Store {
    map k | k in store.Keys + FirstKeys(s, |contents|) ::
      if k in FirstKeys(s, |contents|) then contents[Rank(k.component)] else store[k]
  }

  function Deleted(store: Store, s: Shard, n: nat): Store {
    store - FirstKeys(s, n)
  }

  /** Nothing is ever deployed for the default shard. */
  function DeployTo(store: Store, s: Shard, d: DeployRun): Store {
    if s == DEFAULT_SHARD then store else Applied(store, s, d.applied)
  }

  predicate DeployOk(s: Shard, d: DeployRun) {
    s == DEFAULT_SHARD || d.ok
  }

  function UndeployFrom(store: Store, s: Shard, u: UndeployRun): Store {
    if s == DEFAULT_SHARD then store else Deleted(store, s, u.deleted)
  }

  predicate UndeployOk(s: Shard, u: UndeployRun) {
    s == DEFAULT_SHARD || u.ok
  }

  /** The components of a shard that exist. */
  function Present(store: Store, s: Shard): set<Component> {
    set c: Component | Key(c, s) in store
  }

  function First(n: nat): set<Component> {
    set c: Component | Rank(c) < n
  }

  /** The order in which the components are deployed, and undeployed. */
  lemma FirstComponents()
    ensures First(0) == {}
    ensures First(1) == {AddonController}
    ensures First(2) == {AddonController, Classifier}
    ensures First(3) == {AddonController, Classifier, SveltosClusterManager}
    ensures First(4) == {AddonController, Classifier, SveltosClusterManager, EventManager}
    ensures First(5) == {AddonController, Classifier, SveltosClusterManager, EventManager, HealthCheckManager}
  {}

  /** The stores agree on every shard but one. */
  ghost predicate SameElsewhere(a: Store, b: Store, s: Shard) {
    forall k: Key :: k.shard != s ==> (k in a <==> k in b) && (k in a ==> a[k] == b[k])
  }

  lemma ApplyNext(store: Store, s: Shard, contents: seq<Content>, content: Content)
    requires |contents| < COMPONENT_COUNT
    ensures Applied(store, s, contents + [content]) ==
            Applied(store, s, contents)[Key(At(|contents|), s) := content]
  {
    var n := |contents|;
    forall k: Key | k.shard == s && Rank(k.component) == n
      ensures k == Key(At(n), s)
    {}
  }

  lemma DeleteNext(store: Store, s: Shard, n: nat)
    requires n < COMPONENT_COUNT
    ensures Deleted(store, s, n + 1) == Deleted(store, s, n) - {Key(At(n), s)}
  {
    forall k: Key | k.shard == s && Rank(k.component) == n
      ensures k == Key(At(n), s)
    {}
  }

  /** A run leaves exactly the prefix it reached: those deployments have its contents, the rest
      of the shard and every other shard are as before. */
  lemma DeployPrefix(store: Store, s: Shard, d: DeployRun)
    requires s != DEFAULT_SHARD
    ensures var after := DeployTo(store, s, d);
            && SameElsewhere(store, after, s)
            && Present(after, s) == Present(store, s) + First(|d.applied|)
            && (forall c :: Rank(c) < |d.applied| ==> Key(c, s) in after && after[Key(c, s)] == d.applied[Rank(c)])
            && (forall c :: Rank(c) >= |d.applied| && Key(c, s) in store ==>
                  Key(c, s) in after && after[Key(c, s)] == store[Key(c, s)])
  {}

  lemma UndeployPrefix(store: Store, s: Shard, u: UndeployRun)
    requires s != DEFAULT_SHARD
    ensures var after := UndeployFrom(store, s, u);
            && SameElsewhere(store, after, s)
            && Present(after, s) == Present(store, s) - First(u.deleted)
            && (forall c :: Key(c, s) in after ==> after[Key(c, s)] == store[Key(c, s)])
  {}

  /** One deployment after a run that succeeds. */
  lemma DeployAt(store: Store, s: Shard, d: DeployRun, k: Key)
    requires DeployOk(s, d)
    ensures var after, deployed := DeployTo(store, s, d), s != DEFAULT_SHARD && k.shard == s;
            && (k in after <==> deployed || k in store)
            && (k in after ==> after[k] == if deployed then d.applied[Rank(k.component)] else store[k])
  {}

  lemma UndeployAt(store: Store, s: Shard, u: UndeployRun, k: Key)
    requires UndeployOk(s, u)
    ensures var after := UndeployFrom(store, s, u);
            && (k in after <==> k in store && !(s != DEFAULT_SHARD && k.shard == s))
            && (k in after ==> after[k] == store[k])
  {}

  /** A successful undeploy takes away the five deployments of its shard and nothing else,
      however many deploys came before it. */
  lemma UndeployInvertsDeploy(store: Store, s: Shard, d: DeployRun, u: UndeployRun)
    requires s != DEFAULT_SHARD && u.ok
    ensures UndeployFrom(DeployTo(store, s, d), s, u) == store - KeysOf(s)
  {
    assert forall k :: k in KeysOf(s) ==> Rank(k.component) < COMPONENT_COUNT;
  }

  // ---------- Repeated attempts ----------

  function DeployAll(store: Store, s: Shard, runs: seq<DeployRun>): Store {
    if runs == [] then store else DeployTo(DeployAll(store, s, runs[..|runs| - 1]), s, runs[|runs| - 1])
  }

  function UndeployAll(store: Store, s: Shard, runs: seq<UndeployRun>): Store {
    if runs == [] then store else UndeployFrom(UndeployAll(store, s, runs[..|runs| - 1]), s, runs[|runs| - 1])
  }

  /** The furthest any of the runs got. */
  function FurthestDeploy(runs: seq<DeployRun>): nat {
    if runs == [] then 0
    else
      var best := FurthestDeploy(runs[..|runs| - 1]);
      if |runs[|runs| - 1].applied| > best then |runs[|runs| - 1].applied| else best
  }

  function FurthestUndeploy(runs: seq<UndeployRun>): nat {
    if runs == [] then 0
    else
      var best := FurthestUndeploy(runs[..|runs| - 1]);
      if runs[|runs| - 1].deleted > best then runs[|runs| - 1].deleted else best
  }

  /** With no other writer the set of present deployments only grows over the attempts, up to
      the furthest one. */
  lemma {:induction false} RepeatedDeploys(store: Store, s: Shard, runs: seq<DeployRun>)
    requires s != DEFAULT_SHARD
    ensures Present(DeployAll(store, s, runs), s) == Present(store, s) + First(FurthestDeploy(runs))
  {
    if runs != [] {
      var last := |runs| - 1;
      RepeatedDeploys(store, s, runs[..last]);
      DeployPrefix(DeployAll(store, s, runs[..last]), s, runs[last]);
    }
  }

  lemma {:induction false} RepeatedUndeploys(store: Store, s: Shard, runs: seq<UndeployRun>)
    requires s != DEFAULT_SHARD
    ensures Present(UndeployAll(store, s, runs), s) == Present(store, s) - First(FurthestUndeploy(runs))
  {
    if runs != [] {
      var last := |runs| - 1;
      RepeatedUndeploys(store, s, runs[..last]);
      UndeployPrefix(UndeployAll(store, s, runs[..last]), s, runs[last]);
    }
  }

  // ---------- Redeploying a list of shards ----------

  /** A pass over a list of shards: run i is the deploy of shard i, and the pass may end early. */
  datatype RawPass = Pass(shards: seq<Shard>, runs: seq<DeployRun>)

  type RedeployPass = p: RawPass | |p.runs| <= |p.shards| witness Pass([], [])

  /** What such a pass does to the store. */
  function RedeployList(store: Store, shards: seq<Shard>, runs: seq<DeployRun>): Store
    requires |runs| <= |shards|
  {
    if runs == [] then store
    else
      var last := |runs| - 1;
      DeployTo(RedeployList(store, shards, runs[..last]), shards[last], runs[last])
  }

  /** The loop goes on to the next shard only after a success. */
  ghost predicate StopsAtFailure(runs: seq<DeployRun>) {
    forall i :: 0 <= i < |runs| - 1 ==> runs[i].ok
  }

  ghost predicate AllOk(runs: seq<DeployRun>) {
    forall i :: 0 <= i < |runs| ==> runs[i].ok
  }

  lemma AllOkFirst(d: DeployRun, rest: seq<DeployRun>)
    ensures AllOk([d] + rest) <==> d.ok && AllOk(rest)
  {
    var runs := [d] + rest;
    assert runs[0] == d && forall i :: 0 <= i < |rest| ==> rest[i] == runs[i + 1];
  }

  /** Every deployment after the loop: a shard of the prefix has what its own run applied, every
      other shard is untouched. All runs but the last are complete, so at most one shard is
      partial. */
  lemma {:induction false} RedeployAccount(store: Store, shards: seq<Shard>, runs: seq<DeployRun>, k: Key)
    requires |runs| <= |shards| && StopsAtFailure(runs) && DEFAULT_SHARD !in shards
    requires forall i, j :: 0 <= i < j < |shards| ==> shards[i] != shards[j]
    ensures var after := RedeployList(store, shards, runs);
            && (forall i :: 0 <= i < |runs| && shards[i] == k.shard && Rank(k.component) < |runs[i].applied| ==>
                  k in after && after[k] == runs[i].applied[Rank(k.component)])
            && (forall i :: 0 <= i < |runs| && shards[i] == k.shard && Rank(k.component) >= |runs[i].applied| ==>
                  i == |runs| - 1 && (k in after <==> k in store) && (k in after ==> after[k] == store[k]))
            && (k.shard !in shards[..|runs|] ==> (k in after <==> k in store) && (k in after ==> after[k] == store[k]))
  {
    if runs != [] {
      var last := |runs| - 1;
      RedeployAccount(store, shards, runs[..last], k);
      assert shards[..|runs|] == shards[..last] + [shards[last]];
      assert forall i :: 0 <= i < last ==> runs[..last][i] == runs[i];
    }
  }

  /** The first run of a pass can be taken off it. */
  lemma {:induction false} RedeployFirst(store: Store, shards: seq<Shard>, d: DeployRun, rest: seq<DeployRun>)
    requires |rest| < |shards|
    ensures RedeployList(store, shards, [d] + rest) ==
            RedeployList(DeployTo(store, shards[0], d), shards[1..], rest)
    decreases |rest|
  {
    hide DeployTo;
    var runs := [d] + rest;
    if rest == [] {
      assert runs[..0] == [] && RedeployList(store, shards, []) == store;
    } else {
      var last := |rest| - 1;
      assert runs[..|runs| - 1] == [d] + rest[..last];
      RedeployFirst(store, shards, d, rest[..last]);
    }
  }

  // ---------- The same store under the names the API server knows ----------

  lemma AllNamesDiffer()
    ensures forall k, l :: NameOf(k) == NameOf(l) ==> k == l
  {
    forall k, l
      ensures NameOf(k) == NameOf(l) ==> k == l
    {
      NamesInjective(k, l);
    }
  }

  ghost function ByName(store: Store): map<string, Content> {
    AllNamesDiffer();
    map k | k in store :: NameOf(k) := store[k]
  }

  lemma ByNameApply(store: Store, k: Key, content: Content)
    ensures ByName(store[k := content]) == ByName(store)[NameOf(k) := content]
  {
    AllNamesDiffer();
    hide NameOf;
    var a, b := ByName(store[k := content]), ByName(store)[NameOf(k) := content];
    forall n
      ensures n in a <==> n in b
    {
      if n in a {
        var l :| l in store[k := content] && NameOf(l) == n;
        assert l == k || l in store;
      }
      if n in b && n != NameOf(k) {
        var l :| l in store && NameOf(l) == n;
        assert l in store[k := content];
      }
      assert k in store[k := content];
    }
  }

  lemma ByNameDelete(store: Store, k: Key)
    ensures ByName(store - {k}) == ByName(store) - {NameOf(k)}
  {
    AllNamesDiffer();
    hide NameOf;
    var a, b := ByName(store - {k}), ByName(store) - {NameOf(k)};
    forall n
      ensures n in a <==> n in b
    {
      if n in b {
        var l :| l in store && NameOf(l) == n;
        assert l in store - {k};
      }
    }
  }

  lemma ByNameHas(store: Store, k: Key)
    ensures NameOf(k) in ByName(store) <==> k in store
  {
    AllNamesDiffer();
  }
}
