/** The gate, the single node the plugin steers a pod to, and how Filter and
    Score agree with each other on it. */
module Consistency {
  import opened Kube
  import opened Plugin
  import opened Filtering
  import opened Scoring
  import ShareManager

  /** The constraint applies: the pod opted in and is not a migration target. */
  function Applies(pod: Pod, isMigrationTarget: Labels -> bool): (b: bool)
    ensures b <==>
      (pod.annotations.Some? &&
       AnnotationKey in pod.annotations.value &&
       pod.annotations.value[AnnotationKey] == "true" &&
       !isMigrationTarget(pod.labels))
  {
    IsOptedIn(pod) && !isMigrationTarget(pod.labels)
  }

  /** The node the pod is pinned to, if any: the constraint applies and the
      resolver names a node. */
  function Target(c: Cluster, isMigrationTarget: Labels -> bool, pod: Pod): (t: Option<string>)
  {
    var r := ShareManager.Resolve(c, pod);
    if Applies(pod, isMigrationTarget) && r.Ok? && r.value != "" then Some(r.value) else None
  }

  /** Filter admits a node exactly when there is no target or the node is the
      target; every other node is Unschedulable. */
  lemma FilterAdmitsTarget(c: Cluster, isMigrationTarget: Labels -> bool, pod: Pod, node: Node)
    ensures Filter(c, isMigrationTarget, pod, Some(node)) == Success <==>
      (Target(c, isMigrationTarget, pod).None? || Target(c, isMigrationTarget, pod) == Some(node.name))
    ensures Filter(c, isMigrationTarget, pod, Some(node)) != Success ==>
      Filter(c, isMigrationTarget, pod, Some(node)).Unschedulable?
  {
  }

  /** Score gives the target the maximum and every other node 0. */
  lemma ScoreRewardsTarget(c: Cluster, isMigrationTarget: Labels -> bool, pod: Pod, nodeName: string)
    ensures Score(c, isMigrationTarget, pod, nodeName) ==
      ScoreResult(if Target(c, isMigrationTarget, pod) == Some(nodeName) then MaxNodeScore else 0, Success)
  {
  }

  /** For any outcome of the resolver, a node scores the maximum exactly when
      the gate passes, a node was resolved, and Filter admits the node. */
  lemma FilterScoreAgreeWith(pod: Pod, isMigrationTarget: Labels -> bool, node: Node, resolution: Result<string>)
    ensures ScoreWith(pod, isMigrationTarget, node.name, resolution).score == MaxNodeScore <==>
      (Applies(pod, isMigrationTarget) && resolution.Ok? && resolution.value != "" &&
       FilterWith(pod, isMigrationTarget, Some(node), resolution) == Success)
  {
  }

  /** The same agreement for the resolver run on the snapshot. */
  lemma FilterScoreAgree(c: Cluster, isMigrationTarget: Labels -> bool, pod: Pod, node: Node)
    ensures Score(c, isMigrationTarget, pod, node.name).score == MaxNodeScore <==>
      (Applies(pod, isMigrationTarget) && ShareManager.Resolve(c, pod) != Ok("") &&
       Filter(c, isMigrationTarget, pod, Some(node)) == Success)
  {
  }

  /** When Filter rejects some node, exactly one node name is both admitted
      and scored at the maximum, and every node with the maximum is admitted. */
  lemma OnlyAdmittedNodeScoresMax(c: Cluster, isMigrationTarget: Labels -> bool, pod: Pod, rejected: Node, nodeName: string)
    requires Filter(c, isMigrationTarget, pod, Some(rejected)) != Success
    ensures Target(c, isMigrationTarget, pod).Some?
    ensures Filter(c, isMigrationTarget, pod, Some(Node(Target(c, isMigrationTarget, pod).value))) == Success
    ensures Score(c, isMigrationTarget, pod, nodeName).score == MaxNodeScore <==>
      Filter(c, isMigrationTarget, pod, Some(Node(nodeName))) == Success
  {
  }

  /** Gate precedence: an opted-in migration target is admitted everywhere
      and scores 0 everywhere, whatever the share-manager state. */
  lemma MigrationTargetIsTransparent(c: Cluster, isMigrationTarget: Labels -> bool, pod: Pod, node: Option<Node>, nodeName: string)
    requires IsOptedIn(pod) && isMigrationTarget(pod.labels)
    ensures Filter(c, isMigrationTarget, pod, node) == Success
    ensures Score(c, isMigrationTarget, pod, nodeName) == ScoreResult(0, Success)
  {
  }

  /** With no share-manager object and no share-manager pod, every node is
      admitted and scores 0. */
  lemma AbsenceIsTransparent(c: Cluster, isMigrationTarget: Labels -> bool, pod: Pod, node: Node)
    requires c.shareManagers.None? || forall pv :: ShareManager.ShareManagerKey(pv) !in c.shareManagers.value
    requires forall pv :: ShareManager.ShareManagerPodKey(pv) !in c.pods
    ensures Filter(c, isMigrationTarget, pod, Some(node)) == Success
    ensures Score(c, isMigrationTarget, pod, node.name) == ScoreResult(0, Success)
  {
    ShareManager.AbsentShareManagersResolveNothing(c, pod);
  }
}
