/** The Filter extension point: admit, reject as Unschedulable, or fail with
    an Error status, for one candidate node. */
module Filtering {
  import opened Kube
  import opened Plugin
  import ShareManager

  /** The node object of a NodeInfo; a NodeInfo without one is None. */
  datatype Node = Node(name: string)

  /** A framework status; a nil status is Success. */
  datatype Status = Success | Unschedulable(reason: string) | Error(reason: string)

  /** The reason given when a node is rejected; each %q verb puts its
      argument in double quotes. */
  function RejectReason(nodeName: string, shareManagerNode: string): (reason: string)
    ensures Contains(reason, nodeName) && Contains(reason, shareManagerNode)
  {
    var before := "node \"";
    var between := "\" rejected: Longhorn share-manager pod is running on node \"";
    var after := "\"";
    ContainsBoth(before, nodeName, between, shareManagerNode, after);
    before + nodeName + between + shareManagerNode + after
  }

  /** The decision chain of Filter for a given outcome of the resolver. */
  function FilterWith(pod: Pod, isMigrationTarget: Labels -> bool, node: Option<Node>, resolution: Result<string>): (s: Status)
    ensures s.Success? <==>
      (!IsOptedIn(pod) || isMigrationTarget(pod.labels) ||
       (node.Some? && resolution.Ok? && (resolution.value == "" || resolution.value == node.value.name)))
    ensures s.Unschedulable? ==>
      node.Some? && resolution.Ok? && resolution.value != "" && node.value.name != resolution.value &&
      Contains(s.reason, node.value.name) && Contains(s.reason, resolution.value)
    ensures s.Error? ==> IsOptedIn(pod) && !isMigrationTarget(pod.labels) && (node.None? || resolution.Err?)
  {
    if !IsOptedIn(pod) then Success
    else if isMigrationTarget(pod.labels) then Success
    else if node.None? then Error("node not found")
    else
      match resolution
      case Err(e) => Error("error looking up share-manager pod: " + e)
      case Ok(shareManagerNode) =>
        if shareManagerNode == "" then Success
        else if node.value.name != shareManagerNode then
          Unschedulable(RejectReason(node.value.name, shareManagerNode))
        else Success
  }

  /** Filter with the resolver run on the snapshot. Since the resolver never
      fails, the only Error left is a NodeInfo without a node. */
  function Filter(c: Cluster, isMigrationTarget: Labels -> bool, pod: Pod, node: Option<Node>): (s: Status)
    ensures s.Error? ==> node.None? && s == Error("node not found")
  {
    FilterWith(pod, isMigrationTarget, node, ShareManager.Resolve(c, pod))
  }

  /** A pod that has not opted in passes on every node, whatever the cluster holds. */
  lemma NotOptedInAdmitsEveryNode(c: Cluster, isMigrationTarget: Labels -> bool, pod: Pod, node: Option<Node>)
    requires !IsOptedIn(pod)
    ensures Filter(c, isMigrationTarget, pod, node) == Success
  {
  }

  /** A migration target passes on every node even when opted in. */
  lemma MigrationTargetAdmitsEveryNode(c: Cluster, isMigrationTarget: Labels -> bool, pod: Pod, node: Option<Node>)
    requires isMigrationTarget(pod.labels)
    ensures Filter(c, isMigrationTarget, pod, node) == Success
  {
  }

  /** Once the gate passes, a missing node is an Error whatever the resolver
      would have said: the node check comes before resolution. */
  lemma MissingNodeIsError(pod: Pod, isMigrationTarget: Labels -> bool, resolution: Result<string>)
    requires IsOptedIn(pod) && !isMigrationTarget(pod.labels)
    ensures FilterWith(pod, isMigrationTarget, None, resolution) == Error("node not found")
  {
  }

  /** A resolver error is an Error status: neither success nor Unschedulable. */
  lemma ResolverErrorIsError(pod: Pod, isMigrationTarget: Labels -> bool, node: Node, e: string)
    requires IsOptedIn(pod) && !isMigrationTarget(pod.labels)
    ensures FilterWith(pod, isMigrationTarget, Some(node), Err(e)) == Error("error looking up share-manager pod: " + e)
  {
  }

  /** With nothing resolved every node passes. */
  lemma EmptyResolutionAdmitsEveryNode(c: Cluster, isMigrationTarget: Labels -> bool, pod: Pod, node: Node)
    requires ShareManager.Resolve(c, pod) == Ok("")
    ensures Filter(c, isMigrationTarget, pod, Some(node)) == Success
  {
  }

  /** With a resolved node r, a node passes exactly when it is named r, and is
      otherwise Unschedulable with a reason naming both nodes. */
  lemma ResolvedNodeOnlyPasses(c: Cluster, isMigrationTarget: Labels -> bool, pod: Pod, node: Node, r: string)
    requires IsOptedIn(pod) && !isMigrationTarget(pod.labels)
    requires ShareManager.Resolve(c, pod) == Ok(r) && r != ""
    ensures Filter(c, isMigrationTarget, pod, Some(node)) == Success <==> node.name == r
    ensures node.name != r ==>
      Filter(c, isMigrationTarget, pod, Some(node)).Unschedulable? &&
      Contains(Filter(c, isMigrationTarget, pod, Some(node)).reason, node.name) &&
      Contains(Filter(c, isMigrationTarget, pod, Some(node)).reason, r)
  {
  }

  /** When some node is rejected, at most one node name passes. */
  lemma AtMostOneNodePasses(c: Cluster, isMigrationTarget: Labels -> bool, pod: Pod, rejected: Node, n1: Node, n2: Node)
    requires Filter(c, isMigrationTarget, pod, Some(rejected)).Unschedulable?
    requires Filter(c, isMigrationTarget, pod, Some(n1)) == Success
    requires Filter(c, isMigrationTarget, pod, Some(n2)) == Success
    ensures n1.name == n2.name
  {
  }
}
