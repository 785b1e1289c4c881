/** The Score extension point: a step function giving the share-manager's
    node the maximum score and every other node 0. */
module Scoring {
  import opened Kube
  import opened Plugin
  import opened Filtering
  import ShareManager

  /** framework.MaxNodeScore. */
  const MaxNodeScore: int := 100

  /** The (int64, *Status) pair that Score returns. */
  datatype ScoreResult = ScoreResult(score: int, status: Status)

  /** The decision chain of Score for a given outcome of the resolver. */
  function ScoreWith(pod: Pod, isMigrationTarget: Labels -> bool, nodeName: string, resolution: Result<string>): (r: ScoreResult)
    ensures r.score == 0 || r.score == MaxNodeScore
    ensures r.score == MaxNodeScore <==>
      IsOptedIn(pod) && !isMigrationTarget(pod.labels) && nodeName != "" && resolution == Ok(nodeName)
    ensures r.status != Success ==>
      r.status.Error? && r.score == 0 && resolution.Err? && IsOptedIn(pod) && !isMigrationTarget(pod.labels)
  {
    if !IsOptedIn(pod) then ScoreResult(0, Success)
    else if isMigrationTarget(pod.labels) then ScoreResult(0, Success)
    else
      match resolution
      case Err(e) => ScoreResult(0, Error("error looking up share-manager pod: " + e))
      case Ok(shareManagerNode) =>
        if shareManagerNode == "" then ScoreResult(0, Success)
        else if nodeName == shareManagerNode then ScoreResult(MaxNodeScore, Success)
        else ScoreResult(0, Success)
  }

  /** Score with the resolver run on the snapshot: always a nil status and
      one of the two step values. */
  function Score(c: Cluster, isMigrationTarget: Labels -> bool, pod: Pod, nodeName: string): (r: ScoreResult)
    ensures r.status == Success
    ensures r.score == 0 || r.score == MaxNodeScore
  {
    ScoreWith(pod, isMigrationTarget, nodeName, ShareManager.Resolve(c, pod))
  }

  /** A pod that has not opted in, or a migration target, scores 0 with a nil
      status on every node. */
  lemma GateOffScoresZero(c: Cluster, isMigrationTarget: Labels -> bool, pod: Pod, nodeName: string)
    requires !IsOptedIn(pod) || isMigrationTarget(pod.labels)
    ensures Score(c, isMigrationTarget, pod, nodeName) == ScoreResult(0, Success)
  {
  }

  /** A resolver error scores 0 with an Error status. */
  lemma ResolverErrorScoresZero(pod: Pod, isMigrationTarget: Labels -> bool, nodeName: string, e: string)
    requires IsOptedIn(pod) && !isMigrationTarget(pod.labels)
    ensures ScoreWith(pod, isMigrationTarget, nodeName, Err(e)) ==
      ScoreResult(0, Error("error looking up share-manager pod: " + e))
  {
  }

  /** With nothing resolved every node scores 0. */
  lemma EmptyResolutionScoresZero(c: Cluster, isMigrationTarget: Labels -> bool, pod: Pod, nodeName: string)
    requires ShareManager.Resolve(c, pod) == Ok("")
    ensures Score(c, isMigrationTarget, pod, nodeName) == ScoreResult(0, Success)
  {
  }

  /** With a resolved node r, the node named r scores the maximum and every
      other node 0. */
  lemma ResolvedNodeScoresMax(c: Cluster, isMigrationTarget: Labels -> bool, pod: Pod, nodeName: string, r: string)
    requires IsOptedIn(pod) && !isMigrationTarget(pod.labels)
    requires ShareManager.Resolve(c, pod) == Ok(r) && r != ""
    ensures Score(c, isMigrationTarget, pod, nodeName) ==
      ScoreResult(if nodeName == r then MaxNodeScore else 0, Success)
  {
  }
}
