/** The values every part of the shard controller talks about. */
module ShardTypes {

  datatype Option<+T> = None | Some(value: T)

  /** The value of the shard annotation. The empty string is the default shard, which the
      regular Sveltos deployments serve. */
  type Shard = string

  const DEFAULT_SHARD: Shard := ""

  /** The reference that identifies a SveltosCluster or a CAPI Cluster. */
  datatype Cluster = Cluster(namespace: string, name: string, kind: string, apiVersion: string)

  /** The five controllers deployed for a shard, in the order the controller deploys and
      undeploys them. */
  datatype Component =
    | AddonController
    | Classifier
    | SveltosClusterManager
    | EventManager
    | HealthCheckManager

  const COMPONENT_COUNT: nat := 5

  function Rank(c: Component): nat {
    match c
    case AddonController => 0
    case Classifier => 1
    case SveltosClusterManager => 2
    case EventManager => 3
    case HealthCheckManager => 4
  }

  function At(rank: nat): (c: Component)
    requires rank < COMPONENT_COUNT
    ensures Rank(c) == rank
  {
    if rank == 0 then AddonController
    else if rank == 1 then Classifier
    else if rank == 2 then SveltosClusterManager
    else if rank == 3 then EventManager
    else HealthCheckManager
  }

  /** How an API call can end. Done: it took effect and reported success. Lost: it took effect,
      but the caller sees an error. Refused: an error without effect. */
  datatype Reply = Done | Lost | Refused

  /** One deployment owned by the controller. */
  datatype Key = Key(component: Component, shard: Shard)

  /** The five deployments of a shard. */
  function KeysOf(s: Shard): (keys: set<Key>)
    ensures forall k :: k in keys <==> k.shard == s
  {
    assert forall k: Key :: k.shard == s ==> k == Key(At(Rank(k.component)), s);
    {
      Key(AddonController, s), Key(Classifier, s), Key(SveltosClusterManager, s),
      Key(EventManager, s), Key(HealthCheckManager, s)
    }
  }

  /** Some element of a set, always the same one for the same set. */
  ghost function Pick<T>(s: set<T>): T
    requires s != {}
  {
    var x :| x in s;
    x
  }
}
