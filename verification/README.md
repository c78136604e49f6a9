# Verified model of the shard controller

The shard controller watches clusters for a shard annotation and keeps one set of five Sveltos
controllers running for every non-empty shard key that some cluster carries. This project models
its tracker, its deployments and its argument rewriting in Dafny 4.11, and proves what they keep.

`dafny verify dfyconfig.toml` checks everything.

## The parts

- `ShardTypes`: clusters, shards, the five components in their deployment order, API replies.
- `Bindings`, `Arguments`: what a list of command-line flags means (the last occurrence of a flag
  wins), and setOptions and appendArgsToContainer against that meaning.
- `Rendering`: the five templates, the pipeline from options and configuration to an instantiated
  manifest, and deployment names.
- `Patches`: the ConfigMap of patches for the shard components, read in the order a map yields its
  keys.
- `Deployments`: the store of deployments, and what a complete or broken-off run of deployControllers,
  undeployControllers or redeployAllShards does to it.
- `Tracking`: trackCluster and stopTrackingCluster as functions of the two maps, the store, and the
  outcome of the API calls; agreement of the maps, clusters in limbo, retries, conservation.
- `Histories`: what the maps are after any run, and how runs of tracks, stops and redeploys in which
  nothing fails refine a map from cluster to last observed shard.
- `Interleaving`: a transition system of single API calls, with the write lock, the redeployer that
  applies without a lock, and failures anywhere; an exact account of the deployments and of the
  freshness of their contents.
- `Controller`: classes with the source's mutable state. A shard's set is a heap object, and the API
  server is an object that answers the calls by an arbitrary but fixed oracle, one reply for each
  question by its number. Each method is proved to do what the function of the same purpose says, for
  the outcome that the replies determine: how far it gets, whether it succeeds, and that it asks
  nothing after an error. A ghost list of events makes every sequence of calls on the
  controller a run in the sense of Tracking and Histories, so their results hold of it.

A call to the API server ends in one of three ways: it took effect and succeeded, it was refused, or
it took effect and the caller still sees an error. The patcher, which is not part of this model,
answers in the same way whether it accepts a manifest. A run of deployControllers is therefore a prefix
of applied contents and a verdict, and the five contents with a verdict of failure are possible.

## What came out

- The maps agree one way in every reachable state: a cluster in a shard's set is recorded in that
  shard, and every recorded shard has a set, so the guards for a missing set
  (internal/controller/utils.go:180-193) never fire. The other way fails exactly for clusters in
  limbo. The comment at internal/controller/utils.go:210-211, that the maps stay consistent when the
  deploy fails, is false exactly when the cluster was already taken out of its old set
  (`Tracking.ConsistentUnlessHalfway`). The code is modelled as it is.
- The doc comment of trackCluster (internal/controller/utils.go:157-166) says the cluster is added to
  the shard. A call that reports success does so except for a cluster in limbo that asks for the
  shard it is recorded in (`Tracking.TrackedIsMember`); `Tracking.RevertedMoveIsLost` shows how it
  happens. Nor does success mean that the shard has its five controllers: it has them exactly when
  the call was the one to deploy them or they were all there before (`Tracking.TrackedIsServed`);
  `Tracking.RevertedMoveStaysDegraded` is an instance where they are not.
- A failed undeploy in stopTrackingCluster is never repeated: the second call does nothing
  (`Tracking.StopTwice`).
- With the lock free, the deployments that exist are the ones asked for, minus those a failed move
  out of a shard deleted, plus those that one of three kinds of step left behind
  (`Interleaving.Account`, `ExcessHasACause`, `LackMeansFailedMove`). Each kind does occur.
- Applying without the lock does not make a redeploy less effective: once a pass completes, every
  deployment of an active shard is up to date, whatever tracking did during the pass
  (`Interleaving.CurrentAfterRedeploy`).
- What is applied for a shard is not determined: the configuration flags and the patches come from Go
  maps. Two failure-free runs that saw the same last therefore end with the same maps and the same
  deployments up to that order (`Histories.Convergence`).
- Setting the agent flag keeps every other flag exactly when the argument it takes out is the agent
  flag's own. The shipped templates satisfy that. Were the key filled in first, --shard-key would
  survive exactly for the keys that do not mention the agent (`Rendering.FillingInFirst`).

## Model

| member | source | states |
|---|---|---|
| Controller.ShardController.TrackCluster | internal/controller/utils.go:167-223 | on the mutable maps and sets, for any oracle: the new maps, store, result and calls are those of Tracking.Track for the undeploy and the deploy that the replies make up; it succeeds if and only if no reply it got is an error and, if it deploys, the patches can be read; the sets stay unaliased |
| Controller.ShardController.StopTrackingCluster | internal/controller/utils.go:228-255 | the same against Tracking.Stop and the undeploy that the replies make up; it succeeds if and only if no reply is an error; no set object is replaced |
| Controller.ShardController.ProcessCluster | internal/controller/utils.go:115-155 | a failed read changes nothing; any other reconcile is one event, a stop for a missing or deleting cluster and otherwise a track with the annotation or the default shard: the state, the calls and the verdict are that event's, its runs are those that the replies make up, what it applies is rendered from the patches there are; without an error reply and with readable patches it succeeds, and a run without failures stays one when it does |
| Controller.ShardController.DeployControllers | internal/controller/utils.go:289-377 | succeeds if and only if no reply is an error and the patches can be read, or the shard is the default one; leaves exactly the prefix of the five deployments that the replies let take effect, each rendered for its component with the patches read at the start; asks nothing after an error |
| Controller.ShardController.UndeployControllers | internal/controller/utils.go:401-446 | succeeds if and only if no reply is an error; takes exactly the prefix of the five deployments away whose deletions took effect, makes exactly the calls up to the first error, none for the default shard |
| Controller.ShardController.UndeployDeployment | internal/controller/utils.go:472-502 | succeeds if and only if the reply is no error, whether or not the object was found; the deployment is then absent |
| Controller.ShardController.GetShardComponentsPatches | internal/controller/utils.go:525-544 | without a configured ConfigMap no patches and no call; otherwise one call, and an error if and only if it fails or the ConfigMap exists with a value that is no patch; all its patches in some order, none when it does not exist |
| Patches.GetPatchesFromConfigMap | internal/controller/utils.go:548-567 | whatever the iteration order: succeeds if and only if every value decodes to a patch that is not empty, and then returns each value's patch exactly once, in some order |
| Controller.ShardController.ActiveShards | internal/controller/utils.go:604-611 | whatever the iteration order, the snapshot has each non-default shard with clusters exactly once and nothing else |
| Controller.ShardController.RedeployAllShards | internal/controller/utils.go:601-621 | running alone: one redeploy event over a snapshot of the active shards, whose runs are those that the replies make up, in order up to the first failure; it succeeds if and only if no reply is an error and the patches can be read if it deploys; the maps are unchanged, every content is rendered from the patches there are |
| Controller.ShardController.SuccessfulRedeploy | internal/controller/utils.go:613-620 | after a pass that succeeds every active shard has all five components, rendered with the current patches, and no deployment of another shard has changed |
| Controller.ShardController.FailureFreeRunServes | internal/controller/utils.go:115-255 | for any sequence of calls on the controller since it started on an empty cluster, none of which failed and with constant patches: maps and deployments are those of Histories.Refinement, and each shard's deploys and undeploys alternate |
| Deployments.RedeployAccount | internal/controller/utils.go:613-620 | each deployment after a pass: what its shard's run applied, otherwise what was there; only the last run can be partial |
| Deployments.DeployPrefix | internal/controller/utils.go:317-374 | a run makes exactly the prefix it reached present, with its contents, and leaves the rest of the shard and every other shard alone |
| Deployments.UndeployPrefix | internal/controller/utils.go:411-442 | a run makes exactly the prefix it reached absent and leaves everything else alone |
| Deployments.FirstComponents | internal/controller/utils.go:317-442 | the prefixes spelled out: addon controller, classifier, SveltosCluster manager, event manager, health check manager, for deploy and undeploy alike |
| Deployments.RepeatedDeploys | internal/controller/utils.go:317-374 | over any number of attempts the present components grow to the furthest attempt |
| Deployments.RepeatedUndeploys | internal/controller/utils.go:411-442 | over any number of attempts the present components shrink to the furthest attempt |
| Deployments.UndeployInvertsDeploy | internal/controller/utils.go:401-446 | a successful undeploy after any deploy removes the five deployments of the shard and nothing else |
| Deployments.ByNameApply | internal/controller/utils.go:466-469 | applying under the deployment's name touches that deployment and no other |
| Deployments.ByNameDelete | internal/controller/utils.go:484-493 | deleting by the deployment's name removes that deployment and no other |
| Rendering.NamesInjective | internal/controller/utils.go:452-466 | distinct component and shard pairs have distinct names, and none is the unsuffixed name of a default deployment |
| Rendering.RenderedName | pkg/sharding/addon-controller.go:24 | the manifest of a component for a shard carries that pair's name, for every configuration |
| Tracking.ReachableAgrees | internal/controller/utils.go:170-255 | in every reachable state, failures included: the one-way agreement holds, no shard loses its set, and nothing exists for the default shard that did not before |
| Tracking.TrackLimbo | internal/controller/utils.go:173-218 | exactly how limbo changes in a step: only the tracked cluster, entering by a move whose deploy failed after the erase, staying when it asks for the recorded shard, leaving otherwise |
| Tracking.LimboHistory | internal/controller/utils.go:173-243 | over every run: a cluster is in limbo if and only if some move of it failed halfway and since then it was not stopped and no track of it to another shard succeeded |
| Tracking.StopLimbo | internal/controller/utils.go:236-243 | stopping takes the cluster out of limbo and changes nothing else there |
| Tracking.ConsistentUnlessHalfway | internal/controller/utils.go:203-211 | from consistent maps the step leaves consistent maps if and only if the move did not fail halfway |
| Tracking.TrackedIsMember | internal/controller/utils.go:157-161 | after success the cluster is recorded in the shard, and is in its set if and only if it was not in limbo there |
| Tracking.TrackedIsServed | internal/controller/utils.go:157-208 | after success all five components of the requested non-default shard exist if and only if it had no clusters and the cluster was not recorded in it, or all five existed before |
| Tracking.RevertedMoveIsLost | internal/controller/utils.go:174-177 | for any two shards: a move that fails halfway and is then reverted reports success and leaves the shard without the cluster and without deployments |
| Tracking.RevertedMoveStaysDegraded | internal/controller/utils.go:174-190 | an undeploy that breaks off during a move, followed by the annotation going back, reports success and leaves an active shard without its first component |
| Tracking.StopTwice | internal/controller/utils.go:236-254 | a second stop changes nothing and makes no call, whatever the first one returned |
| Tracking.StopWithoutMembership | internal/controller/utils.go:236-254 | stopping an untracked cluster or one in limbo touches no set and no deployment, although a missing record reads as the default shard |
| Tracking.TrackFrame | internal/controller/utils.go:173-218 | a step leaves the set and the deployments of every shard but the recorded and the requested one as they were |
| Tracking.StopFrame | internal/controller/utils.go:236-247 | the same for a stop, with the recorded shard |
| Tracking.RetryRecovers | internal/controller/utils.go:179-218 | any number of failed attempts, broken off anywhere, followed by a success ends in the state of succeeding at once |
| Tracking.ReachableConserves | internal/controller/utils.go:193-195 | in every reachable state the sets are pairwise disjoint, and their sizes plus the clusters in limbo add up to the tracked clusters |
| Histories.RecordedHistory | internal/controller/utils.go:167-255 | over every run, failures anywhere: the cluster map is the fold of the observations without the tracks that failed, stops counting even when they fail, and each set is a preimage of it without the clusters in limbo |
| Histories.Refinement | internal/controller/utils.go:115-255 | over every run in which nothing fails, redeploys included and with constant patches: the cluster map is the fold of the observations, each set is a preimage, and exactly the five components of each non-default shard with clusters exist, each one a rendering of its component for its shard, in whatever order flags and patches were met |
| Histories.Convergence | internal/controller/utils.go:115-255 | two such runs that agree on each cluster's last observation end with the same cluster map, the same sets, the same set of deployments, and for each deployment contents with the same name, patches and parsed flags |
| Histories.Alternation | internal/controller/utils.go:182-208 | for each shard the deploys and undeploys of track and stop alternate, deploy first, and there is one more deploy exactly while the shard has clusters |
| Interleaving.NextInv | internal/controller/utils.go:167-255 | every API call of every actor keeps the invariant: one-way agreement, what the lock holder relies on, and the exactness of the two records |
| Interleaving.Account | internal/controller/utils.go:167-255 | in every reachable state with the lock free: the deployments are those of the active shards, minus the missing ones, plus the ledger; the missing ones belong to active shards, the ledger to others |
| Interleaving.ExcessHasACause | internal/controller/utils.go:203-254 | every deployment of a shard without clusters has one cause: a deploy that failed part-way, an undeploy that failed after the erase, or an apply from an earlier snapshot; the step it names is in the run, and ever since it the deployment has existed, its shard has not needed it and the ledger has said so; or all that since the start |
| Interleaving.LackHasACause | internal/controller/utils.go:182-191 | in every reachable state, whoever holds the lock: every deployment an active shard lacks was deleted by a move out of that shard; since then it was not applied and the shard kept its clusters |
| Interleaving.LackMeansFailedMove | internal/controller/utils.go:182-191 | with the lock free, that move failed after the deletion |
| Interleaving.QueueWasActive | internal/controller/utils.go:604-613 | every shard the redeployer still has to do was active when its snapshot was taken |
| Interleaving.CurrentAfterRedeploy | internal/controller/utils.go:600-621 | if everything applied from a snapshot on is rendered from one configuration and set of patches, then from the completion of that pass on every existing deployment of an active shard is, with tracks, stops, failures of theirs and later failing passes interleaved anywhere |
| Interleaving.CleanRunServesExactly | internal/controller/utils.go:167-255 | in runs where no locked call fails and no redeploy reaches a shard that no longer needs it, exactly the deployments asked for exist whenever the lock is free |
| Interleaving.UninterruptedTrack | internal/controller/utils.go:167-223 | a critical section with no redeploy call in between has the state and the verdict of the sequential step, for the undeploy and the deploy that the replies to its calls make up |
| Interleaving.UninterruptedStop | internal/controller/utils.go:228-255 | the same for stop |
| Interleaving.UninterruptedRedeploy | internal/controller/utils.go:601-621 | the calls of a pass with nothing in between have the state and the verdict of the sequential redeploy event over the snapshot, for the runs that the replies make up: they stop at the first failure, and no answer after an error makes a difference |
| Interleaving.PassUndisturbed | internal/controller/utils.go:613-620 | in every run, however tracks and stops are interleaved with a pass, it stands where it would stand without them: same shard and component next, nothing after an error |
| Interleaving.NobodyIsBlocked | internal/controller/utils.go:601-621 | in every state with the invariant: the lock holder and the redeployer can each always make their next call, requests begin exactly when the lock is free, and a snapshot exactly when it is free and the last pass is over |
| Interleaving.PartialDeployOccurs | internal/controller/utils.go:203-208 | a reachable state with such an orphan, for any cluster and shard |
| Interleaving.FailedUndeployOccurs | internal/controller/utils.go:242-247 | a reachable state with such an orphan, for any cluster and shard |
| Interleaving.StaleRedeployOccurs | internal/controller/utils.go:604-619 | a reachable state with such an orphan, without any failure, for any cluster and shard |
| Arguments.SetAgentFlag | internal/controller/utils.go:635-649 | the nested loops rewrite every container's list as WithAgent does |
| Arguments.WithAgentElements | internal/controller/utils.go:636-648 | as a multiset: the input without its first mention of the agent, if any, and with the new flag |
| Arguments.WithAgentMentions | internal/controller/utils.go:636-648 | the number of mentions becomes the larger of one and what it was |
| Arguments.WithAgentIdempotent | internal/controller/utils.go:636-648 | with at most one mention, doing it twice gives the same sequence as doing it once |
| Arguments.WithAgentMeaning | internal/controller/utils.go:635-649 | for distinct flags: the result means the input with the agent flag true if and only if the argument taken out, if any, is the agent flag |
| Arguments.AppendArgsToContainer | internal/controller/utils.go:681-706 | for some order of the flags that have a value, each container of that name gets exactly their assignments appended, the others nothing |
| Arguments.AppendMeaning | internal/controller/utils.go:693-705 | for every order the meaning is the input overridden by the flags that have a value |
| Arguments.RewriteMeaning | internal/controller/utils.go:635-705 | both rewritings together, despite the reordering and for every order |
| Rendering.AddClassifierConfigs | internal/controller/utils.go:387-399 | appends to the container named manager the two flags that have a value; nothing when neither has |
| Rendering.AddDriftDetectionConfig | internal/controller/utils.go:379-385 | appends to the container named controller the flag when it has a value |
| Rendering.SubstMeaning | internal/controller/utils.go:504-521 | filling in the shard key changes values only, for every list whose flag names have no placeholder |
| Rendering.SubstEverywhere | internal/controller/utils.go:504-521 | every placeholder of a text is replaced by the key and nothing else is, however many there are |
| Rendering.RenderedMeaning | internal/controller/utils.go:305-374 | for every component, configuration, shard and iteration order, the deployed container and init containers read the template's flags with the overrides and the key filled in |
| Rendering.OptionsReach | internal/controller/utils.go:303-399 | component by component and by literal flag names: which option the deployed container reads under which flag, which flags it lacks, and --agent-in-mgmt-cluster true or false with the option in the four components that have it |
| Rendering.OptionsReachInit | internal/controller/utils.go:653-668 | the same for the two init containers, which get the agent flag but no configuration |
| Rendering.TemplatesSpelled | pkg/sharding/addon-controller.go:24-125 | the names, containers and argument lines of the five templates, spelled out |
| Rendering.RenderingsAgree | internal/controller/utils.go:693-705 | two renderings of the same component have the same name, patches and init containers and read the same flags, whatever order the flags were met in |
| Rendering.ShardKeySurvives | pkg/sharding/addon-controller.go:44-106 | the rendered --shard-key is the shard key, in every container that had the placeholder and for every key that escaping leaves unchanged |

## Left out

- The Kubernetes clients, contexts, schemes and the namespace of the objects: replaced by a store of
  deployments and arbitrary replies. Reading the ConfigMap of patches is an API call without effect;
  in Interleaving its failure is the refusal of the first apply that follows it.
- Decoding and encoding of manifests: a manifest is its name and the names and arguments of its
  containers and init containers, the only fields the controller reads or changes.
- Patches: the content applied is recorded as the manifest together with the list of patches. What a
  patch does is not interpreted, so neither is the effect of their order, and patches are taken to
  keep the deployment's name. The YAML decoding of a ConfigMap value is not modelled, only that it
  yields a patch or fails; nor is the default target that a patch without one gets.
- SubstMeaning: the key is filled in literally, where html/template escapes it, and template actions
  other than the shard placeholder are not modelled. The results about rendered values are for keys
  that escaping leaves unchanged; these include every key that can be part of a deployment's name,
  which has lower-case letters, digits, dashes and dots only.
- libsveltosset.Set is not part of this repository: it is taken to be a finite set of references.
- The annotation's key comes from a library and is a parameter of the controller.
- The reconcilers' set-up, flags, logging, the CAPI watcher, and restarts of the process. A restart
  begins with empty maps and whatever deployments exist, which is how Interleaving starts.
- Alternation: the deploys made by redeployAllShards are not in the sequence of calls, since they
  repeat a deploy that is already there.
- ShardKeySurvives: says nothing of init containers without the placeholder, such as the classifier's.
- A second redeployer at the same time: the ConfigMap reconciler has one worker.
